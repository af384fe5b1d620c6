/** The run-info builder `_bids2nipypeinfo`: from an events table and a
    confounds table it makes the per-run description the GLM design step
    consumes (conditions with parallel onset, duration and amplitude lists,
    and optionally named regressors), plus the motion-parameter matrix it
    writes to `motion.par`. */
module RunInfo {
  import opened Wrappers
  import opened Sequences
  import opened Strings
  import opened Tables

  /** The digit count every `np.round` call in the builder passes, whatever
      the `decimals` argument says. */
  const RoundedDigits: nat := 3

  /** Default of the `decimals` argument. */
  const DefaultDecimals: nat := 3

  /** Default of the `amplitude` argument. */
  const DefaultAmplitude: real := 1.0

  /** `np.round(x, digits)`, left abstract: its floating-point behaviour is not modelled. */
  type Rounding = (real, nat) -> real

  /** `['_'.join(v) for v in product(prefixes, axes)]`. */
  function JoinProduct(prefixes: seq<string>, axes: string): (r: seq<string>)
    ensures |r| == |prefixes| * |axes|
  {
    if |prefixes| == 0 then []
    else
      seq(|axes|, k requires 0 <= k < |axes| => prefixes[0] + "_" + [axes[k]])
        + JoinProduct(prefixes[1..], axes)
  }

  /** The motion columns used when none are given. */
  const DefaultMotionColumns: seq<string> := JoinProduct(["trans", "rot"], "xyz")

  lemma DefaultMotionColumnsValue()
    ensures DefaultMotionColumns == ["trans_x", "trans_y", "trans_z", "rot_x", "rot_y", "rot_z"]
  {
    var axes := "xyz";
    assert ["trans", "rot"][1..] == ["rot"] && ["rot"][1..] == [];
    var trans := seq(|axes|, k requires 0 <= k < |axes| => "trans" + "_" + [axes[k]]);
    var rot := seq(|axes|, k requires 0 <= k < |axes| => "rot" + "_" + [axes[k]]);
    assert "trans" + "_" + "x" == "trans_x" && "trans" + "_" + "y" == "trans_y" && "trans" + "_" + "z" == "trans_z";
    assert "rot" + "_" + "x" == "rot_x" && "rot" + "_" + "y" == "rot_y" && "rot" + "_" + "z" == "rot_z";
    assert trans == ["trans_x", "trans_y", "trans_z"];
    assert rot == ["rot_x", "rot_y", "rot_z"];
    assert JoinProduct(["rot"], axes) == rot + [];
  }

  /** `if not motion_columns:` replaces both None and the empty list by the default. */
  function MotionColumns(given: Option<seq<string>>): (r: seq<string>)
    ensures |r| > 0
    ensures given.Some? && given.value != [] ==> r == given.value
    ensures given.None? || given.value == [] ==> r == DefaultMotionColumns
  {
    if given.Some? && given.value != [] then given.value else DefaultMotionColumns
  }

  /** `sorted(set(columns) - set(motion))`: the regressor names used when none are given. */
  function DefaultRegressorNames(columns: seq<string>, motion: seq<string>): (r: seq<string>)
    ensures StrictlySorted(r) && Distinct(r)
    ensures Elems(r) == Elems(columns) - Elems(motion)
  {
    var kept := Absent(columns, motion);
    var r := SortStrings(kept);
    StrictlySortedIsDistinct(r);
    r
  }

  /** The default names are the only ascending, repeat-free listing of the
      non-motion columns. */
  lemma DefaultRegressorNamesUnique(columns: seq<string>, motion: seq<string>, s: seq<string>)
    requires StrictlySorted(s)
    requires Elems(s) == Elems(columns) - Elems(motion)
    ensures s == DefaultRegressorNames(columns, motion)
  {
    SortedUnique(s, DefaultRegressorNames(columns, motion));
  }

  /** The regressor names the builder works with: the argument, or the default when it is None. */
  function RequestedNames(given: Option<seq<string>>, columns: seq<string>, motion: seq<string>): seq<string>
  {
    match given
    case None => DefaultRegressorNames(columns, motion)
    case Some(names) => names
  }

  /** The columns `regress_data[names]` selects; when some name is missing the
      `KeyError` is caught and the columns of `set(names) & set(columns)` are
      selected instead, in the order `fallback` lists that set. */
  function RegressorColumns(names: seq<string>, columns: seq<string>, fallback: seq<string>): (r: seq<string>)
    requires IsEnumeration(fallback, Elems(names) * Elems(columns))
    ensures forall c :: c in r ==> c in names && c in columns
    ensures forall n :: n in names ==> (n in r <==> n in columns)
    ensures (forall n :: n in names ==> n in columns) ==> r == names
    ensures (exists n :: n in names && n !in columns) ==> Distinct(r)
  {
    InElems(fallback);
    InElems(names);
    InElems(columns);
    if Absent(names, columns) == [] then names else fallback
  }

  /** `regress_data[selected].fillna(0.0).values.T.tolist()`: one list per
      selected column, one value per table row, missing values read as 0. */
  function RegressorValues(t: Confounds, selected: seq<string>): (v: seq<seq<real>>)
    requires WellFormed(t)
    requires forall c :: c in selected ==> c in t.columns
    ensures |v| == |selected| && Rectangular(v, |t.rows|)
    ensures forall j, i :: 0 <= j < |selected| && 0 <= i < |t.rows| ==>
              v[j][i] == FillNa(t.rows[i][ColumnIndex(t.columns, selected[j])], 0.0)
  {
    var m := FillAll(Project(t, selected).value, 0.0);
    Transpose(m, |selected|)
  }

  /** How a condition picks its event rows. The builder uses `str.match`, a
      prefix test; `ExactMatch` is the selection the grouping evidently intends. */
  datatype Matching = PrefixMatch | ExactMatch

  predicate Selects(how: Matching, trialType: string, condition: string)
  {
    match how
    case PrefixMatch => StartsWith(trialType, condition)
    case ExactMatch => trialType == condition
  }

  /** Every trial type selects itself, under either matching. */
  lemma SelectsOwnLabel(how: Matching, trialType: string)
    ensures Selects(how, trialType, trialType)
  {
  }

  /** `events[events.trial_type.str.match(condition)]`: the rows a condition
      picks, in table order, each as often as it occurs. */
  function SelectedRows(rows: seq<EventRow>, condition: string, how: Matching): (r: seq<EventRow>)
    ensures forall k :: 0 <= k < |r| ==> Selects(how, r[k].trialType, condition)
    ensures forall e :: multiset(r)[e] == if Selects(how, e.trialType, condition) then multiset(rows)[e] else 0
    ensures SubsequenceOf(r, rows)
  {
    if |rows| == 0 then []
    else
      assert rows == [rows[0]] + rows[1..];
      var rest := SelectedRows(rows[1..], condition, how);
      if Selects(how, rows[0].trialType, condition) then
        [rows[0]] + rest
      else
        SubsequenceSkip(rest, rows);
        rest
  }

  /** The onset, duration and amplitude lists appended for one condition. */
  datatype ConditionEvents = ConditionEvents(onsets: seq<real>, durations: seq<real>, amplitudes: seq<real>)

  /** The lists one condition contributes: entry `k` of each comes from the
      `k`-th selected row; amplitudes are the `amplitudes` column when there is
      one and `amplitude` repeated otherwise. */
  function EventsFor(events: Events, condition: string, how: Matching, digits: nat,
                     amplitude: real, round: Rounding): (l: ConditionEvents)
    ensures var rows := SelectedRows(events.rows, condition, how);
      && |l.onsets| == |rows| && |l.durations| == |rows| && |l.amplitudes| == |rows|
      && (forall k :: 0 <= k < |rows| ==>
            l.onsets[k] == round(rows[k].onset, digits) && l.durations[k] == round(rows[k].duration, digits))
      && (forall k :: 0 <= k < |rows| ==>
            l.amplitudes[k] == if events.hasAmplitudes then round(rows[k].amplitude, digits) else amplitude)
  {
    var rows := SelectedRows(events.rows, condition, how);
    ConditionEvents(
      seq(|rows|, k requires 0 <= k < |rows| => round(rows[k].onset, digits)),
      seq(|rows|, k requires 0 <= k < |rows| => round(rows[k].duration, digits)),
      if events.hasAmplitudes then seq(|rows|, k requires 0 <= k < |rows| => round(rows[k].amplitude, digits))
      else seq(|rows|, _ => amplitude))
  }

  /** The `regressor_names` and `regressors` fields. */
  datatype Regressors = Regressors(names: seq<string>, values: seq<seq<real>>)

  /** The run-info record (a nipype `Bunch`); `regressors` is None when the
      record has no `regressor_names`/`regressors` fields. */
  datatype Info = Info(scans: string, conditions: seq<string>, onsets: seq<seq<real>>,
                       durations: seq<seq<real>>, amplitudes: seq<seq<real>>,
                       regressors: Option<Regressors>)

  /** What the builder returns: the run info (the source wraps it in a
      one-element list) and the motion matrix it writes to `motion.par`. */
  datatype Output = Output(info: Info, motion: seq<seq<Cell>>)

  /** The arguments of `_bids2nipypeinfo`, with the two files already read
      into tables. `None` stands for Python's `None`. */
  datatype Arguments = Arguments(scans: string, events: Events, confounds: Confounds,
                                 regressorsNames: Option<seq<string>>,
                                 motionColumns: Option<seq<string>>,
                                 decimals: nat, amplitude: real)

  /** `Arguments` with every default the source declares. */
  function WithDefaults(scans: string, events: Events, confounds: Confounds): Arguments
  {
    Arguments(scans, events, confounds, None, None, DefaultDecimals, DefaultAmplitude)
  }

  /** The motion columns the call works with. */
  function Motion(a: Arguments): seq<string>
  {
    MotionColumns(a.motionColumns)
  }

  /** The regressor names the call works with (`regressors_names` after defaulting). */
  function Requested(a: Arguments): seq<string>
  {
    RequestedNames(a.regressorsNames, a.confounds.columns, Motion(a))
  }

  /** The orders Python's set iteration happens to produce: `conditions` for
      `list(set(trial types))`, `fallback` for `list(set(names) & set(columns))`. */
  datatype SetOrders = SetOrders(conditions: seq<string>, fallback: seq<string>)

  /** A call the model covers: the confounds table is well formed and each set
      order lists its set exactly once. */
  predicate Admissible(a: Arguments, orders: SetOrders)
  {
    && WellFormed(a.confounds)
    && IsEnumeration(orders.conditions, TrialTypes(a.events.rows))
    && IsEnumeration(orders.fallback, Elems(Requested(a)) * Elems(a.confounds.columns))
  }

  /** The builder's steps, with the row selection and rounding digits as parameters. */
  function Assemble(how: Matching, digits: nat, a: Arguments, round: Rounding, orders: SetOrders)
    : Result<Output, seq<string>>
    requires Admissible(a, orders)
  {
    var projected := Project(a.confounds, Motion(a));
    if projected.Failure? then Failure(projected.error)
    else
      var requested := Requested(a);
      var conditions := orders.conditions;
      var n := |conditions|;
      var lists := seq(n, i requires 0 <= i < n =>
                         EventsFor(a.events, conditions[i], how, digits, a.amplitude, round));
      var regressors :=
        if requested == [] then None
        else Some(Regressors(requested,
                             RegressorValues(a.confounds,
                                             RegressorColumns(requested, a.confounds.columns, orders.fallback))));
      Success(Output(
        Info(a.scans, conditions,
             seq(n, i requires 0 <= i < n => lists[i].onsets),
             seq(n, i requires 0 <= i < n => lists[i].durations),
             seq(n, i requires 0 <= i < n => lists[i].amplitudes),
             regressors),
        projected.value))
  }

  /** `_bids2nipypeinfo` as written: rows picked by prefix, values rounded to 3
      digits whatever `decimals` is. Fails with the missing names exactly when a
      motion column is absent (the `KeyError` of `regress_data[motion_columns]`). */
  function Bids2NipypeInfo(a: Arguments, round: Rounding, orders: SetOrders): (r: Result<Output, seq<string>>)
    requires Admissible(a, orders)
    ensures r.Success? <==> forall c :: c in Motion(a) ==> c in a.confounds.columns
    ensures r.Failure? ==> forall c :: c in r.error <==> c in Motion(a) && c !in a.confounds.columns
    ensures r.Success? ==>
              var info := r.value.info;
              && info.scans == a.scans
              && IsEnumeration(info.conditions, TrialTypes(a.events.rows))
              && |info.onsets| == |info.conditions|
              && |info.durations| == |info.conditions|
              && |info.amplitudes| == |info.conditions|
              && forall i :: 0 <= i < |info.conditions| ==>
                   ConditionEvents(info.onsets[i], info.durations[i], info.amplitudes[i])
                   == EventsFor(a.events, info.conditions[i], PrefixMatch, RoundedDigits, a.amplitude, round)
    ensures r.Success? ==>
              var regs := r.value.info.regressors;
              && (regs.Some? <==> Requested(a) != [])
              && (regs.Some? ==>
                    && regs.value.names == Requested(a)
                    && regs.value.values
                       == RegressorValues(a.confounds,
                                          RegressorColumns(Requested(a), a.confounds.columns, orders.fallback)))
    ensures r.Success? ==>
              && |r.value.motion| == |a.confounds.rows|
              && Rectangular(r.value.motion, |Motion(a)|)
              && forall i, k :: 0 <= i < |a.confounds.rows| && 0 <= k < |Motion(a)| ==>
                   r.value.motion[i][k] == a.confounds.rows[i][ColumnIndex(a.confounds.columns, Motion(a)[k])]
  {
    Assemble(PrefixMatch, RoundedDigits, a, round, orders)
  }
}
