/**
 * External regressor, confound and artifact inputs: the default column names,
 * `DesignMatrix._validate_component` (which renames and reindexes the caller's
 * table in place), and the expansion of a boolean artifact mask into one-hot
 * indicator columns.
 */
module Components {
  import opened Wrappers

  /** A pandas column label: a string, or an integer position. */
  datatype Label = Name(s: string) | Position(p: int)

  /** The decimal digit character of d. */
  function DigitChar(d: nat): (ch: char)
    requires d < 10
    ensures '0' <= ch <= '9' && DigitValue(ch) == d
  {
    ('0' as int + d) as char
  }

  /** The number a decimal digit character stands for. */
  function DigitValue(ch: char): int
  {
    ch as int - '0' as int
  }

  /** The number a string of decimal digits stands for, most significant first. */
  function DecimalValue(s: string): int
  {
    if |s| == 0 then 0 else 10 * DecimalValue(s[..|s| - 1]) + DigitValue(s[|s| - 1])
  }

  /** `"%d" % n`: the decimal digits of n, without leading zeros. */
  function NatToString(n: nat): (r: string)
    ensures |r| >= 1 && (n >= 10 ==> |r| >= 2)
    ensures forall k :: 0 <= k < |r| ==> '0' <= r[k] <= '9'
    ensures DecimalValue(r) == n
    ensures |r| > 1 ==> r[0] != '0'
  {
    if n < 10 then [DigitChar(n)]
    else
      var p := NatToString(n / 10);
      var r := p + [DigitChar(n % 10)];
      assert r[..|r| - 1] == p;
      r
  }

  /** Different numbers print differently. */
  lemma NatToStringInjective(a: nat, b: nat)
    requires NatToString(a) == NatToString(b)
    ensures a == b
  {
  }

  /** `pd.Series([name_base + "_%d"] * n) % range(n)`. */
  function DefaultLabels(base: string, n: nat): (r: seq<Label>)
    ensures |r| == n
    ensures forall i :: 0 <= i < n ==> r[i].Name? && r[i].s == base + "_" + NatToString(i)
  {
    seq(n, i requires 0 <= i < n => Name(base + "_" + NatToString(i)))
  }

  predicate DistinctLabels(labels: seq<Label>)
  {
    forall i, j :: 0 <= i < j < |labels| ==> labels[i] != labels[j]
  }

  /** The default names never collide. */
  lemma DefaultLabelsDistinct(base: string, n: nat)
    ensures DistinctLabels(DefaultLabels(base, n))
  {
    var r := DefaultLabels(base, n);
    forall i, j | 0 <= i < j < n
      ensures r[i] != r[j]
    {
      var pre := base + "_";
      assert (pre + NatToString(i))[|pre|..] == NatToString(i);
      assert (pre + NatToString(j))[|pre|..] == NatToString(j);
    }
  }

  /** `names.tolist() == list(range(n))`. */
  function IsRange(labels: seq<Label>): (b: bool)
    ensures b <==> labels == seq(|labels|, i => Position(i))
  {
    forall i :: 0 <= i < |labels| ==> labels[i] == Position(i)
  }

  /** The column labels after validation: a positional range is replaced by the default names. */
  function Renamed(labels: seq<Label>, base: string): (r: seq<Label>)
    ensures |r| == |labels|
    ensures IsRange(labels) ==> r == DefaultLabels(base, |labels|)
    ensures !IsRange(labels) ==> r == labels
  {
    if IsRange(labels) then DefaultLabels(base, |labels|) else labels
  }

  /** Renaming is idempotent: the default names are not a positional range. */
  lemma RenamedIdempotent(labels: seq<Label>, base: string)
    ensures Renamed(Renamed(labels, base), base) == Renamed(labels, base)
  {
    var r := Renamed(labels, base);
    if |r| > 0 && IsRange(labels) {
      assert r[0].Name?;
    }
  }

  /** `np.arange(n)` as an index. */
  function RangeIndex(n: nat): (r: seq<real>)
    ensures |r| == n && forall i :: 0 <= i < n ==> r[i] == i as real
  {
    seq(n, i requires 0 <= i < n => i as real)
  }

  /** The alignment test: the index equals the frametimes or is the plain
      positional range 0..n-1 (of the frametimes' length, since comparing
      indexes of different lengths fails in pandas). */
  predicate Aligned(index: seq<real>, frametimes: seq<real>)
  {
    |index| == |frametimes| && (index == frametimes || index == RangeIndex(|index|))
  }

  /** A labelled table (a pandas DataFrame), stored column by column. */
  class Table {
    var columns: seq<Label>
    var index: seq<real>
    var data: seq<seq<real>>

    ghost predicate Valid()
      reads this
    {
      |data| == |columns| && forall c :: 0 <= c < |data| ==> |data[c]| == |index|
    }

    constructor (columns: seq<Label>, index: seq<real>, data: seq<seq<real>>)
      requires |data| == |columns| && forall c :: 0 <= c < |data| ==> |data[c]| == |index|
      ensures Valid()
      ensures this.columns == columns && this.index == index && this.data == data
    {
      this.columns := columns;
      this.index := index;
      this.data := data;
    }

    /** `comp.columns = names`. */
    method SetColumns(names: seq<Label>)
      requires Valid() && |names| == |columns|
      modifies this
      ensures Valid() && columns == names && index == old(index) && data == old(data)
    {
      columns := names;
    }

    /** `comp.index = frametimes`: pandas refuses an index of another length. */
    method SetIndex(frametimes: seq<real>) returns (ok: bool)
      requires Valid()
      modifies this
      ensures Valid() && columns == old(columns) && data == old(data)
      ensures ok <==> |frametimes| == old(|index|)
      ensures index == if ok then frametimes else old(index)
    {
      ok := |frametimes| == |index|;
      if ok {
        index := frametimes;
      }
    }
  }

  /** What a caller may pass for regressors, confounds or artifacts: nothing, a
      plain 2-D array (given as its row count and its columns), or a table. */
  datatype ComponentInput = NoInput | ArrayInput(nrows: nat, cols: seq<seq<real>>) | TableInput(t: Table)

  ghost predicate WellFormedInput(comp: ComponentInput)
    reads if comp.TableInput? then {comp.t} else {}
  {
    match comp
    case NoInput => true
    case ArrayInput(nrows, cols) => forall c :: 0 <= c < |cols| ==> |cols[c]| == nrows
    case TableInput(t) => t.Valid()
  }

  /** `_validate_component`. A table argument is the caller's own object: its
      columns are renamed in place before the alignment test, so they stay
      renamed when the test fails; on success its index becomes the frametimes
      and the same object is returned. An array becomes a fresh table with
      default names, which pandas refuses when its row count is not that of
      the frametimes. */
  method ValidateComponent(comp: ComponentInput, frametimes: seq<real>, base: string)
    returns (r: Result<Option<Table>>)
    requires WellFormedInput(comp)
    modifies if comp.TableInput? then {comp.t} else {}
    ensures comp.NoInput? ==> r == Ok(None)
    ensures comp.ArrayInput? ==> (r.Ok? <==> comp.nrows == |frametimes|)
    ensures comp.ArrayInput? && r.Ok? ==>
              r.value.Some? && fresh(r.value.value) && r.value.value.Valid()
              && r.value.value.columns == DefaultLabels(base, |comp.cols|)
              && r.value.value.index == frametimes && r.value.value.data == comp.cols
    ensures comp.TableInput? ==> comp.t.Valid()
    ensures comp.TableInput? ==>
              comp.t.columns == Renamed(old(comp.t.columns), base) && comp.t.data == old(comp.t.data)
    ensures comp.TableInput? ==> (r.Ok? <==> Aligned(old(comp.t.index), frametimes))
    ensures comp.TableInput? && r.Ok? ==> r.value == Some(comp.t) && comp.t.index == frametimes
    ensures comp.TableInput? && r.Err? ==> comp.t.index == old(comp.t.index)
  {
    match comp
    case NoInput =>
      return Ok(None);
    case ArrayInput(nrows, cols) =>
      if nrows != |frametimes| {
        return Err("Shape of passed values does not match the frametimes");
      }
      var t := new Table(DefaultLabels(base, |cols|), frametimes, cols);
      return Ok(Some(t));
    case TableInput(t) =>
      if IsRange(t.columns) {
        t.SetColumns(DefaultLabels(base, |t.columns|));
      }
      if !Aligned(t.index, frametimes) {
        return Err("Frametimes for " + base + "s do not match design.");
      }
      var ok := t.SetIndex(frametimes);
      return Ok(Some(t));
  }

  /** The number of flagged frames, `artifacts.sum()` of a boolean mask. */
  function Count(mask: seq<bool>): nat
  {
    if |mask| == 0 then 0 else Count(mask[..|mask| - 1]) + (if mask[|mask| - 1] then 1 else 0)
  }

  /** `np.where(artifacts)`: the flagged frames, in frame order. */
  function FlaggedFrames(mask: seq<bool>): (r: seq<nat>)
    ensures |r| == Count(mask)
    ensures forall j :: 0 <= j < |r| ==> r[j] < |mask| && mask[r[j]]
    ensures forall i, j :: 0 <= i < j < |r| ==> r[i] < r[j]
    ensures forall t :: 0 <= t < |mask| && mask[t] ==> t in r
  {
    if |mask| == 0 then []
    else
      var init := FlaggedFrames(mask[..|mask| - 1]);
      if mask[|mask| - 1] then init + [|mask| - 1] else init
  }

  /** `artifacts.any()`. */
  predicate Any(mask: seq<bool>)
  {
    exists t :: 0 <= t < |mask| && mask[t]
  }

  /** The one-hot indicator columns: column j is 1 exactly at the j-th flagged frame. */
  function OneHot(mask: seq<bool>): (cols: seq<seq<real>>)
    ensures |cols| == Count(mask)
    ensures forall j :: 0 <= j < |cols| ==> |cols[j]| == |mask|
  {
    var f := FlaggedFrames(mask);
    seq(|f|, j requires 0 <= j < |f| =>
      seq(|mask|, t requires 0 <= t < |mask| => if t == f[j] then 1.0 else 0.0))
  }

  /** The artifact expansion of `DesignMatrix.__init__`, before validation:
      no mask or a mask without a flagged frame gives no array at all. */
  function ExpandArtifacts(mask: Option<seq<bool>>): (r: Option<seq<seq<real>>>)
    ensures r.None? <==> mask.None? || !Any(mask.value)
    ensures r.Some? ==> |r.value| == Count(mask.value) && |r.value| >= 1
    ensures r.Some? ==> forall j, t :: 0 <= j < |r.value| && 0 <= t < |mask.value| ==>
              |r.value[j]| == |mask.value|
              && (r.value[j][t] == 1.0 <==> t == FlaggedFrames(mask.value)[j])
              && (r.value[j][t] == 0.0 <==> t != FlaggedFrames(mask.value)[j])
  {
    match mask
    case None => None
    case Some(m) =>
      if Any(m) then
        var t :| 0 <= t < |m| && m[t];
        assert t in FlaggedFrames(m);
        Some(OneHot(m))
      else
        None
  }

  /** Every flagged frame is censored by exactly one indicator column, and an
      unflagged frame by none. */
  lemma ArtifactColumnsPartitionFrames(mask: seq<bool>, t: nat)
    requires t < |mask|
    ensures mask[t] ==> exists j :: 0 <= j < Count(mask) && OneHot(mask)[j][t] == 1.0
    ensures forall i, j :: 0 <= i < j < Count(mask) ==> OneHot(mask)[i][t] == 0.0 || OneHot(mask)[j][t] == 0.0
    ensures !mask[t] ==> forall j :: 0 <= j < Count(mask) ==> OneHot(mask)[j][t] == 0.0
  {
    var f := FlaggedFrames(mask);
    if mask[t] {
      var j :| 0 <= j < |f| && f[j] == t;
      assert OneHot(mask)[j][t] == 1.0;
    }
  }
}
