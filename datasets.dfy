/**
  An abstract view of an xarray Dataset, as far as the buoy ingest hook uses it:
  a table from variable name to variable, and the set of names that are
  coordinates. Every variable, coordinate or data variable, is in `vars`
  (xarray's `dataset.variables`).
 */
module Datasets {

  /** One measured value; the hook never computes with samples. */
  type Sample = real

  /** The payload of a variable: a one-dimensional series or a two-dimensional grid. */
  datatype Values =
    | Series(items: seq<Sample>)
    | Grid(rows: seq<seq<Sample>>)

  /** A variable: the names of its dimensions and its data. */
  datatype Variable = Variable(dims: seq<string>, values: Values)

  datatype Dataset = Dataset(vars: map<string, Variable>, coords: set<string>)

  /**
    `rename_vars({from: to})` for one name: the variable `from` is stored under
    `to` and keeps its coordinate status. A missing `from` leaves the dataset as it is.
   */
  function RenameVar(ds: Dataset, from: string, to: string): (r: Dataset)
    ensures from !in ds.vars ==> r == ds
    ensures from in ds.vars ==> to in r.vars && r.vars[to] == ds.vars[from]
    ensures from in ds.vars && from != to ==> from !in r.vars
    ensures from in ds.vars ==> (to in r.coords <==> from in ds.coords)
    ensures from in ds.vars && from != to ==> from !in r.coords
    ensures forall n | n != from && n != to ::
      && (n in r.vars <==> n in ds.vars)
      && (n in r.vars ==> r.vars[n] == ds.vars[n])
      && (n in r.coords <==> n in ds.coords)
  {
    if from !in ds.vars then ds
    else
      Dataset((ds.vars - {from})[to := ds.vars[from]],
              (ds.coords - {from, to}) + (if from in ds.coords then {to} else {}))
  }

  /** Renaming a variable and then renaming it back restores the dataset. */
  lemma RenameVarRoundTrip(ds: Dataset, from: string, to: string)
    requires from in ds.vars && to !in ds.vars && to !in ds.coords
    ensures RenameVar(RenameVar(ds, from, to), to, from) == ds
  {
    var back := RenameVar(RenameVar(ds, from, to), to, from);
    if from != to {
      assert back.vars == ds.vars;
      assert back.coords == ds.coords;
    }
  }

  /** `rename_vars` with several pairs, applied one pair after the other. */
  function RenameVars(ds: Dataset, pairs: seq<(string, string)>): Dataset
    decreases |pairs|
  {
    if pairs == [] then ds else RenameVars(RenameVar(ds, pairs[0].0, pairs[0].1), pairs[1..])
  }

  /** `set_coords(name)`: `name` becomes a coordinate; no variable changes. */
  function SetCoord(ds: Dataset, name: string): Dataset
  {
    Dataset(ds.vars, ds.coords + {name})
  }

  /** `dataset[name] = v`: adds or replaces one variable. */
  function Assign(ds: Dataset, name: string, v: Variable): Dataset
  {
    Dataset(ds.vars[name := v], ds.coords)
  }
}
