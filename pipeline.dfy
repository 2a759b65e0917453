/**
  `Pipeline.hook_customize_raw_datasets` of the a2e buoy ingest pipeline: for
  every raw file, rename variables or build the current profile, chosen by
  substrings of the file name, and store the result back into the mapping.
 */
module BuoyPipeline {
  import opened Results
  import opened Text
  import opened Datasets
  import opened Currents

  const SurfaceTempTag := "surfacetemp"
  const GillTag := "gill"
  const CurrentsTag := "currents"

  const SurfaceTemperature := "Surface Temperature (C)"
  const SurfaceTemperatureRenamed := "surfacetemp - Surface Temperature (C)"
  const GillSpeed := "Horizontal Speed (m/s)"
  const GillSpeedRenamed := "gill_horizontal_wind_speed"
  const GillDirection := "Horizontal Direction (deg)"
  const GillDirectionRenamed := "gill_horizontal_wind_direction"

  /** The "surfacetemp" branch on the original dataset. */
  function RenameSurfaceTemp(ds: Dataset): Dataset
  {
    RenameVars(ds, [(SurfaceTemperature, SurfaceTemperatureRenamed)])
  }

  /** The "gill" branch on the original dataset. */
  function RenameGillWind(ds: Dataset): Dataset
  {
    RenameVars(ds, [(GillSpeed, GillSpeedRenamed), (GillDirection, GillDirectionRenamed)])
  }

  /** The surface temperature variable gets its new name; nothing else changes. */
  lemma SurfaceTempRenamed(ds: Dataset)
    ensures var r := RenameSurfaceTemp(ds);
      && (SurfaceTemperature in ds.vars ==>
            && SurfaceTemperature !in r.vars
            && SurfaceTemperatureRenamed in r.vars
            && r.vars[SurfaceTemperatureRenamed] == ds.vars[SurfaceTemperature])
      && (SurfaceTemperature !in ds.vars ==> r == ds)
      && (forall n | n != SurfaceTemperature && n != SurfaceTemperatureRenamed ::
            && (n in r.vars <==> n in ds.vars)
            && (n in r.vars ==> r.vars[n] == ds.vars[n]))
  {
    var pairs := [(SurfaceTemperature, SurfaceTemperatureRenamed)];
    var once := RenameVar(ds, SurfaceTemperature, SurfaceTemperatureRenamed);
    assert pairs[1..] == [];
    assert RenameVars(ds, pairs) == RenameVars(once, []) == once;
    assert RenameSurfaceTemp(ds) == RenameVar(ds, SurfaceTemperature, SurfaceTemperatureRenamed);
    assert |SurfaceTemperature| != |SurfaceTemperatureRenamed|;
  }

  /** Both wind variables get their new names; nothing else changes. */
  lemma GillWindRenamed(ds: Dataset)
    ensures var r := RenameGillWind(ds);
      && (GillSpeed in ds.vars ==>
            && GillSpeed !in r.vars
            && GillSpeedRenamed in r.vars
            && r.vars[GillSpeedRenamed] == ds.vars[GillSpeed])
      && (GillDirection in ds.vars ==>
            && GillDirection !in r.vars
            && GillDirectionRenamed in r.vars
            && r.vars[GillDirectionRenamed] == ds.vars[GillDirection])
      && (forall n | n != GillSpeed && n != GillSpeedRenamed && n != GillDirection && n != GillDirectionRenamed ::
            && (n in r.vars <==> n in ds.vars)
            && (n in r.vars ==> r.vars[n] == ds.vars[n]))
  {
    var pairs := [(GillSpeed, GillSpeedRenamed), (GillDirection, GillDirectionRenamed)];
    var once := RenameVar(ds, GillSpeed, GillSpeedRenamed);
    var twice := RenameVar(once, GillDirection, GillDirectionRenamed);
    assert pairs[1..] == [(GillDirection, GillDirectionRenamed)];
    assert pairs[1..][1..] == [];
    assert RenameVars(ds, pairs) == RenameVars(once, pairs[1..]) == RenameVars(twice, []) == twice;
    assert RenameGillWind(ds) == RenameVar(once, GillDirection, GillDirectionRenamed);
    assert |GillSpeed| != |GillSpeedRenamed| && |GillSpeed| != |GillDirection| && |GillSpeed| != |GillDirectionRenamed|;
    assert |GillDirection| != |GillDirectionRenamed| && |GillSpeedRenamed| != |GillDirectionRenamed|;
    assert GillSpeedRenamed[0] != GillDirection[0];
  }

  /**
    The value stored for `filename` once the "surfacetemp" and "gill" branches
    have run: the later branch wins, and each starts from the original dataset.
   */
  function BeforeCurrents(filename: string, ds: Dataset): Dataset
  {
    if Contains(filename, GillTag) then RenameGillWind(ds)
    else if Contains(filename, SurfaceTempTag) then RenameSurfaceTemp(ds)
    else ds
  }

  /** The value stored for `filename` after all three branches, or the error raised. */
  function CustomizeEntry(filename: string, ds: Dataset, timeInputName: string): Result<Dataset, HookError>
  {
    if Contains(filename, CurrentsTag) then AddCurrents(ds, timeInputName)
    else Success(BeforeCurrents(filename, ds))
  }

  /**
    What the loop body does to one file: the value left stored under its name,
    and the error raised, if any.
   */
  datatype Visit = Stored(value: Dataset) | Raising(partial: Dataset, error: HookError)

  /** One file's visit: its customised value, or the earlier branches' value and the error. */
  function VisitFile(filename: string, ds: Dataset, timeInputName: string): Visit
  {
    match CustomizeEntry(filename, ds, timeInputName)
    case Success(d) => Stored(d)
    case Failure(e) => Raising(BeforeCurrents(filename, ds), e)
  }

  /** The mapping after the hook, or the mapping as it is left when the hook raises. */
  datatype HookOutcome =
    | Done(datasets: map<string, Dataset>)
    | Raised(datasets: map<string, Dataset>, error: HookError)

  /** Every file name in `order` has a dataset in `ds`. */
  ghost predicate Listed(order: seq<string>, ds: map<string, Dataset>)
  {
    forall k | 0 <= k < |order| :: order[k] in ds
  }

  /**
    The loop after visiting the first `i` files of `order`, in that order,
    each visit reading the file's original dataset: a visit that stores
    replaces the entry and goes on; the first visit that raises leaves its
    partial value and stops the loop.
   */
  function Customized(order: seq<string>, ds: map<string, Dataset>, visit: (string, Dataset) -> Visit, i: nat): HookOutcome
    requires Listed(order, ds) && i <= |order|
  {
    if i == 0 then Done(ds)
    else
      var f := order[i - 1];
      match Customized(order, ds, visit, i - 1)
      case Raised(m, e) => Raised(m, e)
      case Done(m) =>
        match visit(f, ds[f])
        case Stored(v) => Done(m[f := v])
        case Raising(p, e) => Raised(m[f := p], e)
  }

  /** The hook never adds or removes a file name. */
  lemma {:induction false} CustomizedKeys(order: seq<string>, ds: map<string, Dataset>, visit: (string, Dataset) -> Visit, i: nat)
    requires Listed(order, ds) && i <= |order|
    ensures Customized(order, ds, visit, i).datasets.Keys == ds.Keys
  {
    if i > 0 {
      CustomizedKeys(order, ds, visit, i - 1);
    }
  }

  /** Files the hook has not reached keep their original dataset. */
  lemma {:induction false} CustomizedUntouched(order: seq<string>, ds: map<string, Dataset>, visit: (string, Dataset) -> Visit, i: nat, f: string)
    requires Listed(order, ds) && i <= |order|
    requires f in ds && forall k | 0 <= k < i :: order[k] != f
    ensures f in Customized(order, ds, visit, i).datasets && Customized(order, ds, visit, i).datasets[f] == ds[f]
  {
    if i > 0 {
      CustomizedUntouched(order, ds, visit, i - 1, f);
    }
  }

  /**
    The loop completes exactly when no visit raises, and then every visited
    file holds the value its visit stored and every other file its original
    dataset.
   */
  lemma {:induction false} CustomizedDone(order: seq<string>, ds: map<string, Dataset>, visit: (string, Dataset) -> Visit, i: nat)
    requires Listed(order, ds) && i <= |order|
    ensures Customized(order, ds, visit, i).Done? <==>
      forall k | 0 <= k < i :: visit(order[k], ds[order[k]]).Stored?
    ensures Customized(order, ds, visit, i).Done? ==>
      forall f | f in ds ::
        && f in Customized(order, ds, visit, i).datasets
        && Customized(order, ds, visit, i).datasets[f] ==
             if f in order[..i] then visit(f, ds[f]).value else ds[f]
  {
    if i > 0 {
      CustomizedDone(order, ds, visit, i - 1);
      CustomizedKeys(order, ds, visit, i - 1);
      assert forall f :: f in order[..i] <==> f in order[..i - 1] || f == order[i - 1];
    }
  }

  /**
    When the loop raises, it raised at the first visit that raises, the one
    at index `j`: files before it hold their stored values and the failing
    file its partial value.
   */
  lemma {:induction false} CustomizedRaised(order: seq<string>, ds: map<string, Dataset>, visit: (string, Dataset) -> Visit, i: nat)
    returns (j: nat)
    requires Listed(order, ds) && i <= |order|
    requires Customized(order, ds, visit, i).Raised?
    ensures j < i
    ensures forall k | 0 <= k < j :: visit(order[k], ds[order[k]]).Stored?
    ensures visit(order[j], ds[order[j]]).Raising?
    ensures Customized(order, ds, visit, i) ==
      Raised(Customized(order, ds, visit, j).datasets[order[j] := visit(order[j], ds[order[j]]).partial],
             visit(order[j], ds[order[j]]).error)
  {
    if Customized(order, ds, visit, i - 1).Raised? {
      j := CustomizedRaised(order, ds, visit, i - 1);
    } else {
      CustomizedDone(order, ds, visit, i - 1);
      j := i - 1;
    }
  }

  /** Visiting one more file: what the loop holds afterwards. */
  lemma CustomizedStep(order: seq<string>, ds: map<string, Dataset>, visit: (string, Dataset) -> Visit, i: nat, m: map<string, Dataset>, v: Visit)
    requires Listed(order, ds) && i < |order|
    requires Customized(order, ds, visit, i) == Done(m) && v == visit(order[i], ds[order[i]])
    ensures Customized(order, ds, visit, i + 1) ==
      if v.Stored? then Done(m[order[i] := v.value]) else Raised(m[order[i] := v.partial], v.error)
  {
  }

  /** Once the loop has raised, the files after the failing one change nothing. */
  lemma {:induction false} RaisedStops(order: seq<string>, ds: map<string, Dataset>, visit: (string, Dataset) -> Visit, j: nat, i: nat)
    requires Listed(order, ds) && j <= i <= |order|
    requires Customized(order, ds, visit, j).Raised?
    ensures Customized(order, ds, visit, i) == Customized(order, ds, visit, j)
  {
    if j < i {
      RaisedStops(order, ds, visit, j, i - 1);
    }
  }

  /** A file whose name holds none of the three tags keeps its dataset. */
  lemma UntaggedUnchanged(filename: string, ds: Dataset, t: string)
    requires !Contains(filename, SurfaceTempTag) && !Contains(filename, GillTag) && !Contains(filename, CurrentsTag)
    ensures CustomizeEntry(filename, ds, t) == Success(ds)
  {
  }

  /**
    A "surfacetemp" file that is also a "gill" file keeps only the wind
    renaming: the temperature variable keeps its original name.
   */
  lemma GillOverridesSurfaceTemp(filename: string, ds: Dataset, t: string)
    requires Contains(filename, SurfaceTempTag) && Contains(filename, GillTag) && !Contains(filename, CurrentsTag)
    requires SurfaceTemperature in ds.vars
    ensures CustomizeEntry(filename, ds, t).Success?
    ensures var r := CustomizeEntry(filename, ds, t).value;
      && SurfaceTemperature in r.vars && r.vars[SurfaceTemperature] == ds.vars[SurfaceTemperature]
      && (SurfaceTemperatureRenamed in r.vars <==> SurfaceTemperatureRenamed in ds.vars)
  {
    GillWindRenamed(ds);
  }

  /**
    A "gill" file that is also a "currents" file keeps its original wind
    variable names: the currents branch starts again from the original dataset.
   */
  lemma CurrentsOverridesGill(filename: string, ds: Dataset, t: string)
    requires Contains(filename, GillTag) && Contains(filename, CurrentsTag)
    requires GillSpeed in ds.vars && GillDirection in ds.vars
    requires CustomizeEntry(filename, ds, t).Success?
    ensures var r := CustomizeEntry(filename, ds, t).value;
      && r.vars[GillSpeed] == ds.vars[GillSpeed]
      && r.vars[GillDirection] == ds.vars[GillDirection]
      && (GillSpeedRenamed in r.vars <==> GillSpeedRenamed in ds.vars)
      && (GillDirectionRenamed in r.vars <==> GillDirectionRenamed in ds.vars)
  {
    AddCurrentsEffect(ds, t);
  }

  /** Storing under a key twice keeps only the second value. */
  lemma OverwriteTwice(m: map<string, Dataset>, key: string, first: Dataset, second: Dataset)
    ensures m[key := first][key := second] == m[key := second]
  {
  }

  /**
    A Python dict from raw file name to dataset. Keys keep their insertion
    order, which is the order in which `items()` visits them.
   */
  class RawDatasetMapping {
    var order: seq<string>
    var datasets: map<string, Dataset>

    ghost predicate Valid()
      reads this
    {
      && (forall i, j | 0 <= i < j < |order| :: order[i] != order[j])
      && (forall f :: f in datasets <==> f in order)
    }

    constructor ()
      ensures Valid() && order == [] && datasets == map[]
    {
      order, datasets := [], map[];
    }

    /** `mapping[key] = value`: a new key goes to the end of the order. */
    method SetItem(key: string, value: Dataset)
      requires Valid()
      modifies this
      ensures Valid()
      ensures datasets == old(datasets)[key := value]
      ensures order == if key in old(datasets) then old(order) else old(order) + [key]
    {
      if key !in datasets {
        order := order + [key];
      }
      datasets := datasets[key := value];
    }
  }

  /**
    The ingest pipeline, reduced to what the hook uses of its configuration:
    the input name of the "time" variable.
   */
  class Pipeline {
    const timeInputName: string
    /**
      The hook's visit of one file under this configuration: `Valid` ties it
      to `VisitFile` with this pipeline's time input name. The hook's
      specification names it rather than `VisitFile` so that proving the
      loop does not unfold the three branches, which keeps that proof cheap.
     */
    ghost const visit: (string, Dataset) -> Visit

    ghost predicate Valid()
    {
      forall f, d {:trigger VisitFile(f, d, timeInputName)} :: visit(f, d) == VisitFile(f, d, timeInputName)
    }

    constructor (timeInputName: string)
      ensures this.timeInputName == timeInputName && Valid()
    {
      this.timeInputName := timeInputName;
      visit := (f, d) => VisitFile(f, d, timeInputName);
    }

    /**
      The body of the hook's loop for one file: the three branches, each
      reading the original dataset and storing its result under `filename`.
     */
    method CustomizeFile(mapping: RawDatasetMapping, filename: string) returns (v: Visit)
      requires Valid() && mapping.Valid() && filename in mapping.datasets
      modifies mapping
      ensures mapping.Valid() && mapping.order == old(mapping.order)
      ensures v == visit(filename, old(mapping.datasets)[filename])
      ensures mapping.datasets == old(mapping.datasets)[filename := if v.Stored? then v.value else v.partial]
    {
      var dataset := mapping.datasets[filename];
      if Contains(filename, SurfaceTempTag) {
        mapping.SetItem(filename, RenameSurfaceTemp(dataset));
      }
      if Contains(filename, GillTag) {
        mapping.SetItem(filename, RenameGillWind(dataset));
      }
      assert mapping.datasets == old(mapping.datasets)[filename := BeforeCurrents(filename, dataset)];
      assert visit(filename, dataset) == VisitFile(filename, dataset, timeInputName);
      if Contains(filename, CurrentsTag) {
        var added := AddCurrentProfile(dataset, timeInputName);
        if added.Failure? {
          return Raising(BeforeCurrents(filename, dataset), added.error);
        }
        mapping.SetItem(filename, added.value);
        OverwriteTwice(old(mapping.datasets), filename, BeforeCurrents(filename, dataset), added.value);
        return Stored(added.value);
      }
      return Stored(BeforeCurrents(filename, dataset));
    }

    /**
      Customises every raw dataset in place and returns the same mapping; a
      failure in the currents branch raises and leaves the mapping as the
      loop had left it.
     */
    method HookCustomizeRawDatasets(mapping: RawDatasetMapping) returns (r: Result<RawDatasetMapping, HookError>)
      requires Valid() && mapping.Valid()
      modifies mapping
      ensures mapping.Valid()
      ensures mapping.order == old(mapping.order)
      ensures mapping.datasets.Keys == old(mapping.datasets.Keys)
      ensures r.Success? ==> r.value == mapping
      ensures Listed(old(mapping.order), old(mapping.datasets))
      ensures Customized(old(mapping.order), old(mapping.datasets), visit, |old(mapping.order)|) ==
        if r.Success? then Done(mapping.datasets) else Raised(mapping.datasets, r.error)
    {
      ghost var order0, ds0 := mapping.order, mapping.datasets;
      assert Listed(order0, ds0);
      var i := 0;
      while i < |mapping.order|
        invariant 0 <= i <= |order0|
        invariant mapping.Valid() && mapping.order == order0
        invariant Customized(order0, ds0, visit, i) == Done(mapping.datasets)
      {
        var filename := mapping.order[i];
        CustomizedKeys(order0, ds0, visit, i);
        CustomizedUntouched(order0, ds0, visit, i, filename);
        ghost var before := mapping.datasets;
        var v := CustomizeFile(mapping, filename);
        CustomizedStep(order0, ds0, visit, i, before, v);
        if v.Raising? {
          RaisedStops(order0, ds0, visit, i + 1, |order0|);
          return Failure(v.error);
        }
        i := i + 1;
      }
      CustomizedKeys(order0, ds0, visit, i);
      return Success(mapping);
    }
  }
}
