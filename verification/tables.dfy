/** The two whitespace-separated tables the run-info builder reads, as the
    dataframes `pd.read_csv` would make of them, and the dataframe operations
    it applies: column selection, missing-value filling and transposition. */
module Tables {
  import opened Wrappers
  import opened Sequences

  /** One cell of the confounds table: a number, or a missing value (NaN). */
  datatype Cell = Num(value: real) | Missing

  /** `fillna(fill)` on one cell. */
  function FillNa(c: Cell, fill: real): real
  {
    match c
    case Num(v) => v
    case Missing => fill
  }

  /** One row of the events table. `amplitude` is only meaningful when the
      table has an `amplitudes` column. */
  datatype EventRow = EventRow(trialType: string, onset: real, duration: real, amplitude: real)

  /** The events table: its rows in file order, and whether it has an `amplitudes` column. */
  datatype Events = Events(rows: seq<EventRow>, hasAmplitudes: bool)

  /** The distinct `trial_type` values: `set(events.trial_type.values)`. */
  function TrialTypes(rows: seq<EventRow>): set<string>
  {
    set r | r in rows :: r.trialType
  }

  /** The `trial_type` column in row order. */
  function TrialTypeColumn(rows: seq<EventRow>): (labels: seq<string>)
    ensures |labels| == |rows|
    ensures forall i :: 0 <= i < |rows| ==> labels[i] == rows[i].trialType
    ensures Elems(labels) == TrialTypes(rows)
  {
    if |rows| == 0 then []
    else
      assert rows == [rows[0]] + rows[1..];
      ElemsCons(rows[0].trialType, TrialTypeColumn(rows[1..]));
      [rows[0].trialType] + TrialTypeColumn(rows[1..])
  }

  /** The confounds table: named columns and rows of cells. */
  datatype Confounds = Confounds(columns: seq<string>, rows: seq<seq<Cell>>)

  /** Every row has one cell per column, and column names are unique
      (`pd.read_csv` renames repeated header names). */
  predicate WellFormed(t: Confounds)
  {
    && Distinct(t.columns)
    && Rectangular(t.rows, |t.columns|)
  }

  /** Every row of `m` has `width` entries. */
  predicate Rectangular<T>(m: seq<seq<T>>, width: nat)
  {
    forall i :: 0 <= i < |m| ==> |m[i]| == width
  }

  /** Position of a column name that is in the table. */
  function ColumnIndex(columns: seq<string>, name: string): (k: nat)
    requires name in columns
    ensures k < |columns| && columns[k] == name
    ensures forall j :: 0 <= j < k ==> columns[j] != name
  {
    if columns[0] == name then 0 else 1 + ColumnIndex(columns[1..], name)
  }

  /** The requested names the table has, in request order. */
  function Present(names: seq<string>, columns: seq<string>): (r: seq<string>)
    ensures forall n :: n in r <==> n in names && n in columns
    ensures Elems(r) == Elems(names) * Elems(columns)
    ensures SubsequenceOf(r, names)
  {
    if |names| == 0 then []
    else
      var rest := Present(names[1..], columns);
      if names[0] in columns then
        assert ([names[0]] + rest)[1..] == rest;
        [names[0]] + rest
      else
        rest
  }

  /** The requested names the table lacks, in request order: those a `KeyError` reports. */
  function Absent(names: seq<string>, columns: seq<string>): (r: seq<string>)
    ensures forall n :: n in r <==> n in names && n !in columns
    ensures |r| == 0 <==> forall n :: n in names ==> n in columns
    ensures SubsequenceOf(r, names)
  {
    if |names| == 0 then []
    else
      var rest := Absent(names[1..], columns);
      if names[0] in columns then
        rest
      else
        assert ([names[0]] + rest)[1..] == rest;
        [names[0]] + rest
  }

  /** `df[names].values`: the named columns, in the order named, row by row.
      Raises `KeyError` with the missing names when any name is not a column. */
  function Project(t: Confounds, names: seq<string>): (r: Result<seq<seq<Cell>>, seq<string>>)
    requires WellFormed(t)
    ensures r.Success? <==> forall n :: n in names ==> n in t.columns
    ensures r.Failure? ==> r.error != [] && forall n :: n in r.error <==> n in names && n !in t.columns
    ensures r.Success? ==> |r.value| == |t.rows| && Rectangular(r.value, |names|)
    ensures r.Success? ==> forall i, k :: 0 <= i < |t.rows| && 0 <= k < |names| ==>
                             r.value[i][k] == t.rows[i][ColumnIndex(t.columns, names[k])]
  {
    var missing := Absent(names, t.columns);
    if missing != [] then Failure(missing)
    else Success(seq(|t.rows|, i requires 0 <= i < |t.rows| =>
                   seq(|names|, k requires 0 <= k < |names| => t.rows[i][ColumnIndex(t.columns, names[k])])))
  }

  /** Selecting every column in table order gives back the table's rows. */
  lemma ProjectAllColumns(t: Confounds)
    requires WellFormed(t)
    ensures Project(t, t.columns) == Success(t.rows)
  {
    assert Absent(t.columns, t.columns) == [];
    var m := Project(t, t.columns).value;
    forall i | 0 <= i < |t.rows|
      ensures m[i] == t.rows[i]
    {
      forall k | 0 <= k < |t.columns|
        ensures m[i][k] == t.rows[i][k]
      {
        var k' := ColumnIndex(t.columns, t.columns[k]);
        assert k' == k;
      }
    }
    assert m == t.rows;
  }

  /** `fillna(fill)` on a whole matrix. */
  function FillAll(m: seq<seq<Cell>>, fill: real): (r: seq<seq<real>>)
    ensures |r| == |m|
    ensures forall i :: 0 <= i < |m| ==> |r[i]| == |m[i]|
    ensures forall i, k :: 0 <= i < |m| && 0 <= k < |m[i]| ==> r[i][k] == FillNa(m[i][k], fill)
  {
    seq(|m|, i requires 0 <= i < |m| => seq(|m[i]|, k requires 0 <= k < |m[i]| => FillNa(m[i][k], fill)))
  }

  /** `.T.tolist()` on a matrix whose rows all have `width` entries: one list
      per column, each as long as the matrix has rows. */
  function Transpose<T>(m: seq<seq<T>>, width: nat): (r: seq<seq<T>>)
    requires Rectangular(m, width)
    ensures |r| == width && Rectangular(r, |m|)
    ensures forall j, i :: 0 <= j < width && 0 <= i < |m| ==> r[j][i] == m[i][j]
  {
    seq(width, j requires 0 <= j < width => seq(|m|, i requires 0 <= i < |m| => m[i][j]))
  }

  /** Transposing twice gives back the matrix, for any shape, empty ones included. */
  lemma TransposeInvolution<T>(m: seq<seq<T>>, width: nat)
    requires Rectangular(m, width)
    ensures Transpose(Transpose(m, width), |m|) == m
  {
    var back := Transpose(Transpose(m, width), |m|);
    forall i | 0 <= i < |m|
      ensures back[i] == m[i]
    {
    }
  }
}
