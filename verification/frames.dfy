/** A column-oriented model of the pandas frames the pipeline builds: an index of row labels,
    column names, and one list of cells per column. Only the operations the pipeline uses are
    modelled, each as it behaves in that use. pandas aligns rows by index label, not by position;
    the model asks for equal indexes wherever the pipeline relies on rows lining up. */
module Frames {
  import opened Outcomes
  import opened Lists

  /** One cell: text (names, dates), a whole number, or a rate. Rates are only carried from
      table to table, so a `real` stands for the float. */
  datatype Cell = Str(s: string) | Int(i: int) | Float(x: real)

  /** The exceptions the modelled code raises. */
  datatype Error =
    | MissingColumn(column: string)  // KeyError from df[name]
    | UnknownPatch(patch: string)    // ValueError from list.index
    | NothingToConcatenate           // ValueError from pd.concat([])
    | UnparseableDate(cell: Cell)    // parser error from pd.to_datetime
    | DivisionByZero                 // ZeroDivisionError

  datatype Series = Series(name: string, index: seq<int>, values: seq<Cell>)

  datatype Frame = Frame(index: seq<int>, names: seq<string>, columns: seq<seq<Cell>>)

  predicate ValidSeries(s: Series) {
    |s.values| == |s.index|
  }

  /** One name per column, one cell per row label in every column. */
  predicate Valid(f: Frame) {
    |f.columns| == |f.names| && forall j :: 0 <= j < |f.columns| ==> |f.columns[j]| == |f.index|
  }

  /** The default index 0, 1, ..., n - 1. */
  function RangeIndex(n: nat): (ix: seq<int>)
    ensures |ix| == n && forall i :: 0 <= i < n ==> ix[i] == i
  {
    seq(n, i => i)
  }

  /** `df[name]`: the column called `name`, as a series on the frame's index. With a repeated
      name pandas returns every such column; the frames indexed here have unique names (for the
      joined table, `Pipeline.LeagueColumnsDistinct`), and there the first match is the column. */
  function Get(f: Frame, name: string): (r: Result<Series, Error>)
    requires Valid(f)
    ensures r.Failure? <==> name !in f.names
    ensures r.Failure? ==> r.error == MissingColumn(name)
    ensures r.Success? ==> ValidSeries(r.value) && r.value.name == name && r.value.index == f.index
  {
    match FirstIndex(f.names, name)
    case None => Failure(MissingColumn(name))
    case Some(j) => Success(Series(name, f.index, f.columns[j]))
  }

  /** When column names are unique, `df[name]` is the column at that name's position. */
  lemma GetUnique(f: Frame, j: nat)
    requires Valid(f) && Distinct(f.names) && j < |f.names|
    ensures Get(f, f.names[j]) == Success(Series(f.names[j], f.index, f.columns[j]))
  {
    FirstIndexOfDistinct(f.names, j);
  }

  /** `pd.concat(parts, axis=1)` for series on one shared index: one column per series, named
      after it, in the order given. */
  function ConcatSeries(parts: seq<Series>): (f: Frame)
    requires |parts| > 0
    requires forall k :: 0 <= k < |parts| ==> ValidSeries(parts[k]) && parts[k].index == parts[0].index
    ensures Valid(f) && f.index == parts[0].index && |f.names| == |parts|
    ensures forall k :: 0 <= k < |parts| ==> f.names[k] == parts[k].name && f.columns[k] == parts[k].values
  {
    var f := Frame(parts[0].index,
                   seq(|parts|, k requires 0 <= k < |parts| => parts[k].name),
                   seq(|parts|, k requires 0 <= k < |parts| => parts[k].values));
    forall k | 0 <= k < |parts| ensures |f.columns[k]| == |f.index| {
      assert ValidSeries(parts[k]) && parts[k].index == parts[0].index;
    }
    f
  }

  /** `df.columns = names`, with as many names as columns. */
  function Rename(f: Frame, names: seq<string>): (g: Frame)
    requires Valid(f) && |names| == |f.names|
    ensures Valid(g) && g.names == names && g.index == f.index && g.columns == f.columns
  {
    f.(names := names)
  }

  /** `pd.concat([a, b], axis=1)` for frames on the same index: the columns of `a`, then those of `b`. */
  function Join(a: Frame, b: Frame): (f: Frame)
    requires Valid(a) && Valid(b) && a.index == b.index
    ensures Valid(f) && f.index == a.index
    ensures f.names == a.names + b.names && f.columns == a.columns + b.columns
  {
    Frame(a.index, a.names + b.names, a.columns + b.columns)
  }

  /** All frames are well formed and share the first one's column names. */
  predicate SameColumns(frames: seq<Frame>) {
    forall i :: 0 <= i < |frames| ==> Valid(frames[i]) && frames[i].names == frames[0].names
  }

  function TotalRows(frames: seq<Frame>): nat {
    if frames == [] then 0 else TotalRows(frames[..|frames| - 1]) + |frames[|frames| - 1].index|
  }

  /** Column `j` of every frame, one after the other. */
  function StackColumn(frames: seq<Frame>, j: nat): (c: seq<Cell>)
    requires SameColumns(frames) && (frames != [] ==> j < |frames[0].names|)
    ensures |c| == TotalRows(frames)
  {
    if frames == [] then [] else StackColumn(frames[..|frames| - 1], j) + frames[|frames| - 1].columns[j]
  }

  /** `pd.concat(frames, ignore_index=True)` for frames with the same columns: their rows one
      after the other, relabelled 0, 1, ...; an empty list raises `ValueError`. */
  function StackRows(frames: seq<Frame>): (r: Result<Frame, Error>)
    requires SameColumns(frames)
    ensures r.Failure? <==> frames == []
    ensures r.Failure? ==> r.error == NothingToConcatenate
    ensures r.Success? ==> Valid(r.value) && r.value.names == frames[0].names
    ensures r.Success? ==> r.value.index == RangeIndex(TotalRows(frames))
    ensures r.Success? ==> forall j :: 0 <= j < |r.value.columns| ==> r.value.columns[j] == StackColumn(frames, j)
  {
    if frames == [] then Failure(NothingToConcatenate)
    else
      var width := |frames[0].names|;
      Success(Frame(RangeIndex(TotalRows(frames)), frames[0].names,
                    seq(width, j requires 0 <= j < width => StackColumn(frames, j))))
  }

  /** `n` copies of one frame have the same columns and `n` times its rows. */
  lemma {:induction false} StackCopiesRows(f: Frame, n: nat)
    requires Valid(f)
    ensures SameColumns(seq(n, _ => f))
    ensures TotalRows(seq(n, _ => f)) == n * |f.index|
  {
    if n > 0 {
      StackCopiesRows(f, n - 1);
      assert seq(n, _ => f)[..n - 1] == seq(n - 1, _ => f);
      assert n * |f.index| == (n - 1) * |f.index| + |f.index|;
    }
  }

  /** Stacking `n` copies of one frame gives, in each column, `n` copies of that column. */
  lemma {:induction false} StackCopiesColumn(f: Frame, n: nat, j: nat)
    requires Valid(f) && j < |f.names|
    ensures SameColumns(seq(n, _ => f))
    ensures StackColumn(seq(n, _ => f), j) == Cycle(f.columns[j], n)
  {
    StackCopiesRows(f, n);
    if n > 0 {
      StackCopiesColumn(f, n - 1, j);
      assert seq(n, _ => f)[..n - 1] == seq(n - 1, _ => f);
    }
  }

  /** `df[name] = values` for values on the frame's own index: the first column called `name`
      is overwritten where it stands, and without one the new column goes last. */
  function SetColumn(f: Frame, name: string, values: seq<Cell>): (g: Frame)
    requires Valid(f) && |values| == |f.index|
    ensures Valid(g) && g.index == f.index
    ensures name in f.names ==> g.names == f.names
    ensures name !in f.names ==> g.names == f.names + [name] && g.columns[|f.names|] == values
    ensures forall j :: 0 <= j < |f.names| && f.names[j] != name ==> g.columns[j] == f.columns[j]
    ensures Get(g, name) == Success(Series(name, f.index, values))
  {
    match FirstIndex(f.names, name)
    case None =>
      var g := Frame(f.index, f.names + [name], f.columns + [values]);
      assert FirstIndex(g.names, name) == Some(|f.names|);
      g
    case Some(j) =>
      var g := f.(columns := f.columns[j := values]);
      assert FirstIndex(g.names, name) == Some(j);
      g
  }

  /** `df[wanted]`: the listed columns in the listed order, on the same index; a label that is
      not a column raises `KeyError`. */
  function Select(f: Frame, wanted: seq<string>): (r: Result<Frame, Error>)
    requires Valid(f)
    ensures r.Success? <==> forall k :: 0 <= k < |wanted| ==> wanted[k] in f.names
    ensures r.Failure? ==> r.error.MissingColumn? && r.error.column in wanted && r.error.column !in f.names
    ensures r.Success? ==> Valid(r.value) && r.value.index == f.index && r.value.names == wanted
    ensures r.Success? ==> forall k :: 0 <= k < |wanted| ==>
                             Get(f, wanted[k]) == Success(Series(wanted[k], f.index, r.value.columns[k]))
    decreases |wanted|
  {
    if wanted == [] then Success(Frame(f.index, [], []))
    else
      var first :- Get(f, wanted[0]);
      var rest :- Select(f, wanted[1..]);
      var g := Frame(f.index, wanted, [first.values] + rest.columns);
      assert forall k :: 1 <= k < |wanted| ==> wanted[k] == wanted[1..][k - 1];
      Success(g)
  }

  /** With unique column names, `df[wanted]` takes, for each wanted label, the column at the
      position `pos` gives for it. */
  lemma SelectDistinct(f: Frame, wanted: seq<string>, pos: seq<nat>, picked: seq<seq<Cell>>)
    requires Valid(f) && Distinct(f.names) && |pos| == |wanted| == |picked|
    requires forall k :: 0 <= k < |wanted| ==>
               pos[k] < |f.names| && f.names[pos[k]] == wanted[k] && picked[k] == f.columns[pos[k]]
    ensures Select(f, wanted) == Success(Frame(f.index, wanted, picked))
  {
    var r := Select(f, wanted);
    forall k | 0 <= k < |wanted| ensures Get(f, wanted[k]) == Success(Series(wanted[k], f.index, picked[k])) {
      GetUnique(f, pos[k]);
    }
    assert r.Success?;
    assert r.value.columns == picked;
  }
}
