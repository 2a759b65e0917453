/**
  The "currents" branch of the buoy ingest hook: the scan over numbered
  velocity/direction bins, the depth axis, and the stacking of the per-bin
  series into time-by-depth grids.
 */
module Currents {
  import opened Results
  import opened Text
  import opened Datasets

  /** Why the currents branch raises. */
  datatype HookError =
    | NoCurrentBins   // no bin found: the stacked array is one-dimensional, not (time, depth)
    | MismatchedBins  // a bin is not a series, or bins differ in length

  /** The two quantities recorded per depth bin. */
  datatype Quantity = Velocity | Direction

  const DepthName := "depth"
  const TimeDim := "time"
  const CurrentSpeedName := "current_speed"
  const CurrentDirectionName := "current_direction"

  /** The variable holding bin `k` (counted from 0), whose label is `k + 1`. */
  function BinName(q: Quantity, k: nat): string
  {
    match q
    case Velocity => "Vel" + NatToString(k + 1) + " (mm/s)"
    case Direction => "Dir" + NatToString(k + 1) + " (deg)"
  }

  /** `has_vel_and_dir(k)`: both variables of bin `k` exist. */
  predicate HasVelAndDir(ds: Dataset, k: nat)
  {
    BinName(Velocity, k) in ds.vars && BinName(Direction, k) in ds.vars
  }

  /** Every bin below `m` has both its variables. */
  ghost predicate BinsBelow(ds: Dataset, m: nat)
  {
    forall q: Quantity, k: nat | k < m :: BinName(q, k) in ds.vars
  }

  /** The names of the velocity variables of the first `m` bins. */
  ghost function VelocityNames(m: nat): set<string>
  {
    set k: nat | k < m :: BinName(Velocity, k)
  }

  lemma {:induction false} VelocityNamesCount(m: nat)
    ensures |VelocityNames(m)| == m
  {
    if m > 0 {
      VelocityNamesCount(m - 1);
      var last := BinName(Velocity, m - 1);
      forall s
        ensures s in VelocityNames(m) <==> s in VelocityNames(m - 1) + {last}
      {
        if s in VelocityNames(m) {
          var k: nat :| k < m && BinName(Velocity, k) == s;
          assert k < m - 1 || k == m - 1;
        }
      }
      assert VelocityNames(m) == VelocityNames(m - 1) + {last};
      if last in VelocityNames(m - 1) {
        var k: nat :| k < m - 1 && BinName(Velocity, k) == last;
        AffixedNumberInjective("Vel", k + 1, m, " (mm/s)");
        assert false;
      }
    }
  }

  /**
    A dataset with `m` complete bins has at least `m` variables, which is why
    the scan stops.
   */
  lemma {:induction false} BinsBounded(ds: Dataset, m: nat)
    requires BinsBelow(ds, m)
    ensures m <= |ds.vars|
  {
    VelocityNamesCount(m);
    var names := VelocityNames(m);
    forall name | name in names
      ensures name in ds.vars.Keys
    {
      var k: nat :| k < m && BinName(Velocity, k) == name;
    }
    SubsetSize(names, ds.vars.Keys);
  }

  lemma SubsetSize(a: set<string>, b: set<string>)
    requires a <= b
    ensures |a| <= |b|
  {
    assert b == a + (b - a);
  }

  /** The number of complete bins counted onwards from bin `i`. */
  function BinCountFrom(ds: Dataset, i: nat): (n: nat)
    requires BinsBelow(ds, i)
    ensures i <= n && BinsBelow(ds, n) && !HasVelAndDir(ds, n)
    decreases |ds.vars| - i
  {
    if HasVelAndDir(ds, i) then
      BinsBounded(ds, i + 1);
      BinCountFrom(ds, i + 1)
    else
      i
  }

  /** The number of bins the scan finds: the first index whose bin is incomplete. */
  function BinCount(ds: Dataset): (n: nat)
    ensures BinsBelow(ds, n) && !HasVelAndDir(ds, n)
  {
    BinCountFrom(ds, 0)
  }

  /** The bin count is the least index whose bin is incomplete. */
  lemma BinCountIsLeast(ds: Dataset, m: nat)
    requires !HasVelAndDir(ds, m)
    ensures BinCount(ds) <= m
  {
  }

  /** The depth axis of `n` bins, one entry appended per bin: 4, 8, ..., 4n. */
  function DepthAxis(n: nat): (r: seq<int>)
    ensures |r| == n
  {
    if n == 0 then [] else DepthAxis(n - 1) + [4 * n]
  }

  /** Bin `k` lies at depth 4(k+1). */
  lemma {:induction false} DepthAxisAt(n: nat, k: nat)
    requires k < n
    ensures DepthAxis(n)[k] == 4 * (k + 1)
  {
    if k < n - 1 {
      DepthAxisAt(n - 1, k);
    }
  }

  /** The depth axis is strictly increasing and holds positive multiples of 4. */
  lemma DepthAxisShape(n: nat)
    ensures forall i, j | 0 <= i < j < n :: DepthAxis(n)[i] < DepthAxis(n)[j]
    ensures forall k | 0 <= k < n :: DepthAxis(n)[k] > 0 && DepthAxis(n)[k] % 4 == 0
  {
    forall k | 0 <= k < n
      ensures DepthAxis(n)[k] == 4 * (k + 1)
    {
      DepthAxisAt(n, k);
    }
  }

  /** A depth on the axis identifies its bin. */
  lemma DepthIdentifiesBin(n: nat, k: nat)
    requires k < n
    ensures DepthAxis(n)[k] / 4 - 1 == k
  {
    DepthAxisAt(n, k);
  }

  /** The depth axis as samples, as stored in the dataset. */
  function AsSamples(depth: seq<int>): (r: seq<Sample>)
    ensures |r| == |depth| && forall k | 0 <= k < |r| :: r[k] == depth[k] as real
  {
    seq(|depth|, k requires 0 <= k < |depth| => depth[k] as real)
  }

  /** The data of quantity `q` for the first `n` bins, one entry appended per bin. */
  function Column(ds: Dataset, q: Quantity, n: nat): (r: seq<Values>)
    requires BinsBelow(ds, n)
    ensures |r| == n
  {
    if n == 0 then [] else Column(ds, q, n - 1) + [ds.vars[BinName(q, n - 1)].values]
  }

  lemma {:induction false} ColumnAt(ds: Dataset, q: Quantity, n: nat, k: nat)
    requires BinsBelow(ds, n) && k < n
    ensures Column(ds, q, n)[k] == ds.vars[BinName(q, k)].values
  {
    if k < n - 1 {
      ColumnAt(ds, q, n - 1, k);
    }
  }

  /**
    The bin-scan loop: while bin `i` has both variables, append its depth and
    its two series. Returns the number of bins and the three collected lists.
   */
  method ScanBins(ds: Dataset) returns (n: nat, depth: seq<int>, velData: seq<Values>, dirData: seq<Values>)
    ensures BinsBelow(ds, n) && !HasVelAndDir(ds, n)
    ensures |depth| == n && |velData| == n && |dirData| == n
    ensures forall k | 0 <= k < n ::
      && depth[k] == 4 * (k + 1)
      && velData[k] == ds.vars[BinName(Velocity, k)].values
      && dirData[k] == ds.vars[BinName(Direction, k)].values
    ensures depth == DepthAxis(n)
    ensures velData == Column(ds, Velocity, n) && dirData == Column(ds, Direction, n)
  {
    var i: nat := 0;
    depth, velData, dirData := [], [], [];
    while HasVelAndDir(ds, i)
      invariant BinsBelow(ds, i)
      invariant i <= |ds.vars|
      invariant depth == DepthAxis(i)
      invariant velData == Column(ds, Velocity, i) && dirData == Column(ds, Direction, i)
      decreases |ds.vars| - i
    {
      BinsBounded(ds, i + 1);
      depth := depth + [4 * (i + 1)];
      velData := velData + [ds.vars[BinName(Velocity, i)].values];
      dirData := dirData + [ds.vars[BinName(Direction, i)].values];
      i := i + 1;
    }
    n := i;
    forall k | 0 <= k < n
      ensures depth[k] == 4 * (k + 1)
      ensures velData[k] == ds.vars[BinName(Velocity, k)].values
      ensures dirData[k] == ds.vars[BinName(Direction, k)].values
    {
      DepthAxisAt(n, k);
      ColumnAt(ds, Velocity, n, k);
      ColumnAt(ds, Direction, n, k);
    }
  }

  /** Every row of `m` has the length of the first. */
  predicate Rectangular(m: seq<seq<Sample>>)
  {
    forall i | 0 <= i < |m| :: |m[i]| == |m[0]|
  }

  /** `numpy.transpose` of a rectangular two-dimensional array. */
  function Transpose(m: seq<seq<Sample>>): seq<seq<Sample>>
    requires Rectangular(m)
  {
    if |m| == 0 then []
    else seq(|m[0]|, j requires 0 <= j < |m[0]| => seq(|m|, i requires 0 <= i < |m| => m[i][j]))
  }

  /** The transpose has a row per column of `m`, each as long as `m`, and swaps the indices. */
  lemma TransposeShape(m: seq<seq<Sample>>)
    requires Rectangular(m)
    ensures |m| == 0 ==> Transpose(m) == []
    ensures |m| > 0 ==> |Transpose(m)| == |m[0]|
    ensures forall j | 0 <= j < |Transpose(m)| :: |Transpose(m)[j]| == |m|
    ensures forall j, i | 0 <= j < |Transpose(m)| && 0 <= i < |m| :: Transpose(m)[j][i] == m[i][j]
  {
  }

  /** Transposing twice gives back any non-degenerate rectangular array. */
  lemma TransposeTwice(m: seq<seq<Sample>>)
    requires Rectangular(m) && |m| > 0 && |m[0]| > 0
    ensures Rectangular(Transpose(m)) && Transpose(Transpose(m)) == m
  {
    TransposeShape(m);
    var r := Transpose(m);
    assert Rectangular(r);
    TransposeShape(r);
    var rr := Transpose(r);
    assert |rr| == |m|;
    forall i | 0 <= i < |m|
      ensures rr[i] == m[i]
    {
      assert |rr[i]| == |m[i]|;
    }
  }

  /** The series of each bin, once they are known all to be series. */
  function SeriesOf(cols: seq<Values>): (r: seq<seq<Sample>>)
    requires forall k | 0 <= k < |cols| :: cols[k].Series?
    ensures |r| == |cols| && forall k | 0 <= k < |r| :: r[k] == cols[k].items
  {
    seq(|cols|, k requires 0 <= k < |cols| => cols[k].items)
  }

  /** At least one entry, every entry a series, all of one length. */
  predicate UniformSeries(cols: seq<Values>)
  {
    && |cols| > 0
    && (forall k | 0 <= k < |cols| :: cols[k].Series?)
    && (forall k | 0 <= k < |cols| :: |cols[k].items| == |cols[0].items|)
  }

  /**
    `numpy.array(cols).transpose()` placed under dims (time, depth): row `t`
    holds sample `t` of every bin. It raises when there is no bin or when the
    bins are not series of one common length.
   */
  function Stacked(cols: seq<Values>): Result<seq<seq<Sample>>, HookError>
  {
    if |cols| == 0 then Failure(NoCurrentBins)
    else if UniformSeries(cols) then Success(Transpose(SeriesOf(cols)))
    else Failure(MismatchedBins)
  }

  /**
    Stacking succeeds exactly for uniform series, fails with `NoCurrentBins`
    or `MismatchedBins` otherwise, and on success row `t` holds sample `t` of
    every bin, in bin order.
   */
  lemma StackedSpec(cols: seq<Values>)
    ensures Stacked(cols).Success? <==> UniformSeries(cols)
    ensures Stacked(cols).Failure? ==> Stacked(cols).error == if |cols| == 0 then NoCurrentBins else MismatchedBins
    ensures Stacked(cols).Success? ==>
      var r := Stacked(cols).value;
      && |r| == |cols[0].items|
      && (forall t | 0 <= t < |r| :: |r[t]| == |cols|)
      && (forall t, k | 0 <= t < |r| && 0 <= k < |cols| :: r[t][k] == cols[k].items[t])
  {
    if UniformSeries(cols) {
      TransposeShape(SeriesOf(cols));
    }
  }

  /** The first `n` bins of quantity `q` are series of one common length, and `n > 0`. */
  ghost predicate BinsUniform(ds: Dataset, q: Quantity, n: nat)
    requires BinsBelow(ds, n)
  {
    && n > 0
    && (forall k | 0 <= k < n :: ds.vars[BinName(q, k)].values.Series?)
    && (forall k | 0 <= k < n :: |ds.vars[BinName(q, k)].values.items| == |ds.vars[BinName(q, 0)].values.items|)
  }

  lemma ColumnUniform(ds: Dataset, q: Quantity, n: nat)
    requires BinsBelow(ds, n)
    ensures UniformSeries(Column(ds, q, n)) <==> BinsUniform(ds, q, n)
  {
    forall k | 0 <= k < n
      ensures Column(ds, q, n)[k] == ds.vars[BinName(q, k)].values
    {
      ColumnAt(ds, q, n, k);
    }
  }

  /**
    The currents branch on the original dataset: the time variable and a new
    `depth` axis become coordinates, and the bins are stacked into
    `current_speed` and `current_direction`, both (time, depth).
   */
  function AddCurrents(ds: Dataset, timeInputName: string): (r: Result<Dataset, HookError>)
  {
    var n := BinCount(ds);
    var speed := Stacked(Column(ds, Velocity, n));
    var direction := Stacked(Column(ds, Direction, n));
    if speed.Failure? then Failure(speed.error)
    else if direction.Failure? then Failure(direction.error)
    else
      var vars := ds.vars[DepthName := Variable([DepthName], Series(AsSamples(DepthAxis(n))))]
                         [CurrentSpeedName := Variable([TimeDim, DepthName], Grid(speed.value))]
                         [CurrentDirectionName := Variable([TimeDim, DepthName], Grid(direction.value))];
      Success(Dataset(vars, ds.coords + {timeInputName, DepthName}))
  }

  /** The names the currents branch writes. */
  predicate IsCurrentsOutput(name: string)
  {
    name == DepthName || name == CurrentSpeedName || name == CurrentDirectionName
  }

  /** When the currents branch succeeds or raises, and what it adds. */
  lemma AddCurrentsEffect(ds: Dataset, timeInputName: string)
    ensures BinCount(ds) == 0 ==> AddCurrents(ds, timeInputName) == Failure(NoCurrentBins)
    ensures AddCurrents(ds, timeInputName).Success? <==>
      BinsUniform(ds, Velocity, BinCount(ds)) && BinsUniform(ds, Direction, BinCount(ds))
    ensures AddCurrents(ds, timeInputName).Success? ==>
      var r := AddCurrents(ds, timeInputName).value;
      && r.coords == ds.coords + {timeInputName, DepthName}
      && r.vars.Keys == ds.vars.Keys + {DepthName, CurrentSpeedName, CurrentDirectionName}
      && (forall name | name in ds.vars && !IsCurrentsOutput(name) :: r.vars[name] == ds.vars[name])
      && r.vars[DepthName] == Variable([DepthName], Series(AsSamples(DepthAxis(BinCount(ds)))))
      && r.vars[CurrentSpeedName].dims == [TimeDim, DepthName]
      && r.vars[CurrentDirectionName].dims == [TimeDim, DepthName]
  {
    var n := BinCount(ds);
    ColumnUniform(ds, Velocity, n);
    ColumnUniform(ds, Direction, n);
    StackedSpec(Column(ds, Velocity, n));
    StackedSpec(Column(ds, Direction, n));
    var r := AddCurrents(ds, timeInputName);
    if r.Success? {
      assert r.value.vars.Keys == ds.vars.Keys + {DepthName, CurrentSpeedName, CurrentDirectionName};
    }
  }

  /**
    The two grids: `current_speed[t][k]` is sample `t` of `Vel{k+1} (mm/s)` and
    `current_direction[t][k]` sample `t` of `Dir{k+1} (deg)`, for every bin `k`.
   */
  lemma AddCurrentsGrids(ds: Dataset, timeInputName: string, t: nat, k: nat)
    requires AddCurrents(ds, timeInputName).Success?
    requires k < BinCount(ds)
    ensures var r := AddCurrents(ds, timeInputName).value;
      && r.vars[CurrentSpeedName].values.Grid?
      && r.vars[CurrentDirectionName].values.Grid?
      && var speed, direction := r.vars[CurrentSpeedName].values.rows, r.vars[CurrentDirectionName].values.rows;
      && var vel, dir := ds.vars[BinName(Velocity, k)].values, ds.vars[BinName(Direction, k)].values;
      && vel.Series? && dir.Series?
      && |speed| == |vel.items| && |direction| == |dir.items|
      && (t < |speed| ==> |speed[t]| == BinCount(ds) && speed[t][k] == vel.items[t])
      && (t < |direction| ==> |direction[t]| == BinCount(ds) && direction[t][k] == dir.items[t])
  {
    var n := BinCount(ds);
    ColumnAt(ds, Velocity, n, k);
    ColumnAt(ds, Direction, n, k);
    ColumnAt(ds, Velocity, n, 0);
    ColumnAt(ds, Direction, n, 0);
    StackedSpec(Column(ds, Velocity, n));
    StackedSpec(Column(ds, Direction, n));
  }

  /**
    The currents branch of the hook: scan the bins, stack them, and add the
    coordinates and the two grids to the dataset.
   */
  method AddCurrentProfile(dataset: Dataset, timeInputName: string) returns (r: Result<Dataset, HookError>)
    ensures r == AddCurrents(dataset, timeInputName)
  {
    var n, depth, velData, dirData := ScanBins(dataset);
    var speed := Stacked(velData);
    var direction := Stacked(dirData);
    if speed.Failure? {
      return Failure(speed.error);
    }
    if direction.Failure? {
      return Failure(direction.error);
    }
    var ds := SetCoord(dataset, timeInputName);
    ds := Assign(ds, DepthName, Variable([DepthName], Series(AsSamples(depth))));
    ds := SetCoord(ds, DepthName);
    ds := Assign(ds, CurrentSpeedName, Variable([TimeDim, DepthName], Grid(speed.value)));
    ds := Assign(ds, CurrentDirectionName, Variable([TimeDim, DepthName], Grid(direction.value)));
    assert ds.vars == dataset.vars[DepthName := Variable([DepthName], Series(AsSamples(depth)))]
                                  [CurrentSpeedName := Variable([TimeDim, DepthName], Grid(speed.value))]
                                  [CurrentDirectionName := Variable([TimeDim, DepthName], Grid(direction.value))];
    assert ds.coords == dataset.coords + {timeInputName, DepthName};
    return Success(ds);
  }
}
