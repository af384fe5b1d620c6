/** Properties of the run-info builder that relate several of its outputs or
    several calls: every event is listed, how many entries the conditions hold
    together, what the regressor fields contain, and that `decimals` has no effect. */
module RunInfoProperties {
  import opened Wrappers
  import opened Sequences
  import opened Strings
  import opened Tables
  import opened RunInfo

  /** How many entries a list of per-condition lists holds in all. */
  function TotalEvents(lists: seq<seq<real>>): nat
  {
    if |lists| == 0 then 0 else |lists[0]| + TotalEvents(lists[1..])
  }

  /** How many rows the conditions pick together, a row counted once per condition picking it. */
  function Picked(rows: seq<EventRow>, conditions: seq<string>, how: Matching): nat
  {
    if |conditions| == 0 then 0
    else |SelectedRows(rows, conditions[0], how)| + Picked(rows, conditions[1..], how)
  }

  /** How many of the conditions pick a row of the given trial type. */
  function Hits(conditions: seq<string>, trialType: string, how: Matching): nat
  {
    if |conditions| == 0 then 0
    else (if Selects(how, trialType, conditions[0]) then 1 else 0) + Hits(conditions[1..], trialType, how)
  }

  /** How many rows a condition picks, counted without building the selection. */
  function CountSelected(rows: seq<EventRow>, condition: string, how: Matching): nat
  {
    if |rows| == 0 then 0
    else (if Selects(how, rows[0].trialType, condition) then 1 else 0) + CountSelected(rows[1..], condition, how)
  }

  lemma {:induction false} CountSelectedIsLength(rows: seq<EventRow>, condition: string, how: Matching)
    ensures |SelectedRows(rows, condition, how)| == CountSelected(rows, condition, how)
    decreases |rows|
  {
    if |rows| > 0 {
      CountSelectedIsLength(rows[1..], condition, how);
    }
  }

  /** No trial type is a proper prefix of another. */
  predicate PrefixFree(trialTypes: set<string>)
  {
    forall x, y :: x in trialTypes && y in trialTypes && StartsWith(x, y) ==> x == y
  }

  /** A condition picks a row only when it is the row's own trial type. */
  predicate OnlyOwnTypeSelects(rows: seq<EventRow>, conditions: seq<string>, how: Matching)
  {
    forall r, c :: r in rows && c in conditions && Selects(how, r.trialType, c) ==> c == r.trialType
  }

  lemma {:induction false} TotalEventsIsPicked(onsets: seq<seq<real>>, rows: seq<EventRow>,
                                                conditions: seq<string>, how: Matching)
    requires |onsets| == |conditions|
    requires forall i :: 0 <= i < |conditions| ==> |onsets[i]| == |SelectedRows(rows, conditions[i], how)|
    ensures TotalEvents(onsets) == Picked(rows, conditions, how)
    decreases |conditions|
  {
    if |conditions| > 0 {
      TotalEventsIsPicked(onsets[1..], rows, conditions[1..], how);
    }
  }

  /** Adding a row in front adds one pick per condition that selects it. */
  lemma {:induction false} PickedCons(r: EventRow, rest: seq<EventRow>, conditions: seq<string>, how: Matching)
    ensures Picked([r] + rest, conditions, how) == Hits(conditions, r.trialType, how) + Picked(rest, conditions, how)
    decreases |conditions|
  {
    if |conditions| > 0 {
      assert ([r] + rest)[1..] == rest;
      PickedCons(r, rest, conditions[1..], how);
    }
  }

  lemma {:induction false} HitsNone(conditions: seq<string>, t: string, how: Matching)
    requires t !in conditions
    requires forall c :: c in conditions && Selects(how, t, c) ==> c == t
    ensures Hits(conditions, t, how) == 0
    decreases |conditions|
  {
    if |conditions| > 0 {
      assert conditions[0] in conditions;
      HitsNone(conditions[1..], t, how);
    }
  }

  lemma {:induction false} HitsOnce(conditions: seq<string>, t: string, how: Matching)
    requires Distinct(conditions) && t in conditions
    requires forall c :: c in conditions && Selects(how, t, c) ==> c == t
    ensures Hits(conditions, t, how) == 1
    decreases |conditions|
  {
    if conditions[0] == t {
      SelectsOwnLabel(how, t);
      assert t !in conditions[1..];
      HitsNone(conditions[1..], t, how);
    } else {
      assert conditions[0] in conditions;
      HitsOnce(conditions[1..], t, how);
    }
  }

  /** When each row's trial type is one of the conditions, listed once, and only
      that condition picks it, the conditions together pick every row exactly once. */
  lemma {:induction false} PickedCoversRows(rows: seq<EventRow>, conditions: seq<string>, how: Matching)
    requires Distinct(conditions)
    requires forall r :: r in rows ==> r.trialType in conditions
    requires OnlyOwnTypeSelects(rows, conditions, how)
    ensures Picked(rows, conditions, how) == |rows|
    decreases |rows|
  {
    if |rows| == 0 {
      PickedNothing(conditions, how);
    } else {
      assert rows == [rows[0]] + rows[1..];
      PickedCons(rows[0], rows[1..], conditions, how);
      HitsOnce(conditions, rows[0].trialType, how);
      PickedCoversRows(rows[1..], conditions, how);
    }
  }

  lemma {:induction false} PickedNothing(conditions: seq<string>, how: Matching)
    ensures Picked([], conditions, how) == 0
    decreases |conditions|
  {
    if |conditions| > 0 {
      PickedNothing(conditions[1..], how);
    }
  }

  lemma TotalEventsOfTwo(lists: seq<seq<real>>)
    requires |lists| == 2
    ensures TotalEvents(lists) == |lists[0]| + |lists[1]|
  {
    var tail := lists[1..];
    assert tail[1..] == [] && tail[0] == lists[1];
    assert TotalEvents(tail) == |tail[0]| + TotalEvents(tail[1..]);
  }

  /** With exactly two trial types, the two conditions' onset lists hold as many
      entries together as the two selections. */
  lemma TwoConditions(a: Arguments, round: Rounding, orders: SetOrders, x: string, y: string)
    requires Admissible(a, orders)
    requires Bids2NipypeInfo(a, round, orders).Success?
    requires x != y && TrialTypes(a.events.rows) == {x, y}
    ensures var info := Bids2NipypeInfo(a, round, orders).value.info;
            && |info.conditions| == 2
            && (forall i :: 0 <= i < 2 ==> info.conditions[i] == x || info.conditions[i] == y)
            && (forall i :: 0 <= i < 2 ==>
                  |info.onsets[i]| == if info.conditions[i] == x then |SelectedRows(a.events.rows, x, PrefixMatch)|
                                      else |SelectedRows(a.events.rows, y, PrefixMatch)|)
            && TotalEvents(info.onsets)
               == |SelectedRows(a.events.rows, x, PrefixMatch)| + |SelectedRows(a.events.rows, y, PrefixMatch)|
  {
    var info := Bids2NipypeInfo(a, round, orders).value.info;
    var c := info.conditions;
    DistinctCardinality(c);
    assert |{x, y}| == 2;
    OnsetListLengths(a, round, orders);
    TotalEventsOfTwo(info.onsets);
    InElems(c);
    forall i | 0 <= i < 2
      ensures c[i] == x || c[i] == y
    {
      assert c[i] in Elems(c);
    }
    assert c[0] != c[1];
  }

  /** Each condition's onset list is as long as its selection. */
  lemma OnsetListLengths(a: Arguments, round: Rounding, orders: SetOrders)
    requires Admissible(a, orders)
    requires Bids2NipypeInfo(a, round, orders).Success?
    ensures var info := Bids2NipypeInfo(a, round, orders).value.info;
            forall i :: 0 <= i < |info.conditions| ==>
              |info.onsets[i]| == |SelectedRows(a.events.rows, info.conditions[i], PrefixMatch)|
  {
    var info := Bids2NipypeInfo(a, round, orders).value.info;
    forall i | 0 <= i < |info.conditions|
      ensures |info.onsets[i]| == |SelectedRows(a.events.rows, info.conditions[i], PrefixMatch)|
    {
      var l := EventsFor(a.events, info.conditions[i], PrefixMatch, RoundedDigits, a.amplitude, round);
      assert l.onsets == info.onsets[i];
    }
  }

  /** Every event row appears in the lists of its own trial type: its rounded
      onset and duration sit at one position of that condition's lists. */
  lemma EveryEventIsListed(a: Arguments, round: Rounding, orders: SetOrders, j: nat)
    requires Admissible(a, orders)
    requires Bids2NipypeInfo(a, round, orders).Success?
    requires j < |a.events.rows|
    ensures var info := Bids2NipypeInfo(a, round, orders).value.info;
            exists i, k :: 0 <= i < |info.conditions| && 0 <= k < |info.onsets[i]|
              && info.conditions[i] == a.events.rows[j].trialType
              && info.onsets[i][k] == round(a.events.rows[j].onset, RoundedDigits)
              && info.durations[i][k] == round(a.events.rows[j].duration, RoundedDigits)
  {
    var info := Bids2NipypeInfo(a, round, orders).value.info;
    var row := a.events.rows[j];
    InElems(info.conditions);
    assert row.trialType in TrialTypes(a.events.rows);
    var i :| 0 <= i < |info.conditions| && info.conditions[i] == row.trialType;
    var selected := SelectedRows(a.events.rows, row.trialType, PrefixMatch);
    SelectsOwnLabel(PrefixMatch, row.trialType);
    assert multiset(a.events.rows)[row] > 0;
    assert multiset(selected)[row] > 0;
    var k :| 0 <= k < |selected| && selected[k] == row;
    var l := EventsFor(a.events, row.trialType, PrefixMatch, RoundedDigits, a.amplitude, round);
    assert l == ConditionEvents(info.onsets[i], info.durations[i], info.amplitudes[i]);
  }

  /** When no trial type is a prefix of another, prefix selection picks each
      row for its own condition only, and the onset lists hold every row once. */
  lemma PrefixFreeTypesListEachRowOnce(a: Arguments, round: Rounding, orders: SetOrders)
    requires Admissible(a, orders)
    requires PrefixFree(TrialTypes(a.events.rows))
    requires Bids2NipypeInfo(a, round, orders).Success?
    ensures var info := Bids2NipypeInfo(a, round, orders).value.info;
            TotalEvents(info.onsets) == |a.events.rows|
  {
    var info := Bids2NipypeInfo(a, round, orders).value.info;
    var rows := a.events.rows;
    InElems(info.conditions);
    OnsetListLengths(a, round, orders);
    TotalEventsIsPicked(info.onsets, rows, info.conditions, PrefixMatch);
    forall r | r in rows
      ensures r.trialType in info.conditions
    {
      assert r.trialType in TrialTypes(rows);
    }
    forall r, c | r in rows && c in info.conditions && Selects(PrefixMatch, r.trialType, c)
      ensures c == r.trialType
    {
      assert r.trialType in TrialTypes(rows);
      assert c in TrialTypes(rows);
    }
    PickedCoversRows(rows, info.conditions, PrefixMatch);
  }

  /** Without an `amplitudes` column each condition's amplitude list is
      `amplitude` once per picked row, as long as its onset list. */
  lemma AmplitudesDefaultWithoutColumn(a: Arguments, round: Rounding, orders: SetOrders)
    requires Admissible(a, orders)
    requires !a.events.hasAmplitudes
    requires Bids2NipypeInfo(a, round, orders).Success?
    ensures var info := Bids2NipypeInfo(a, round, orders).value.info;
            forall i :: 0 <= i < |info.conditions| ==>
              && |info.amplitudes[i]| == |info.onsets[i]|
              && forall k :: 0 <= k < |info.amplitudes[i]| ==> info.amplitudes[i][k] == a.amplitude
  {
  }

  /** Distinct lists have as many elements as their set. */
  lemma {:induction false} DistinctCardinality<T>(s: seq<T>)
    requires Distinct(s)
    ensures |Elems(s)| == |s|
    decreases |s|
  {
    if |s| > 0 {
      assert s == [s[0]] + s[1..];
      ElemsCons(s[0], s[1..]);
      assert s[0] !in s[1..];
      DistinctCardinality(s[1..]);
    }
  }

  /** With `regressors_names` left None, the regressor fields exist exactly when
      some column is not a motion column; the names are then those columns,
      ascending and without repeats, and each has one value per table row. */
  lemma DefaultRegressorsAreNonMotionColumns(a: Arguments, round: Rounding, orders: SetOrders)
    requires Admissible(a, orders)
    requires a.regressorsNames.None?
    requires Bids2NipypeInfo(a, round, orders).Success?
    ensures var regs := Bids2NipypeInfo(a, round, orders).value.info.regressors;
            && (regs.Some? <==> exists c :: c in a.confounds.columns && c !in Motion(a))
            && (regs.Some? ==>
                  && StrictlySorted(regs.value.names)
                  && Distinct(regs.value.names)
                  && (forall c :: c in regs.value.names <==> c in a.confounds.columns && c !in Motion(a))
                  && |regs.value.values| == |regs.value.names|
                  && Rectangular(regs.value.values, |a.confounds.rows|))
  {
    var columns := a.confounds.columns;
    var names := DefaultRegressorNames(columns, Motion(a));
    assert names == Requested(a);
    var regs := Bids2NipypeInfo(a, round, orders).value.info.regressors;
    assert forall c :: c in names <==> c in columns && c !in Motion(a) by {
      InElems(names);
      InElems(columns);
      InElems(Motion(a));
    }
    assert names != [] <==> exists c :: c in columns && c !in Motion(a) by {
      HeadInElems(names);
    }
    if regs.Some? {
      assert RegressorColumns(names, columns, orders.fallback) == names;
    }
  }

  /** When some requested names are not columns, the call still succeeds: the
      names field keeps the full request, and the values hold one list per
      distinct requested name that is a column, none if no requested name is. */
  lemma MissingRequestedNamesFallBack(a: Arguments, round: Rounding, orders: SetOrders)
    requires Admissible(a, orders)
    requires a.regressorsNames.Some? && a.regressorsNames.value != []
    requires exists n :: n in a.regressorsNames.value && n !in a.confounds.columns
    requires forall c :: c in Motion(a) ==> c in a.confounds.columns
    ensures Bids2NipypeInfo(a, round, orders).Success?
    ensures var regs := Bids2NipypeInfo(a, round, orders).value.info.regressors;
            var names := a.regressorsNames.value;
            && regs.Some?
            && regs.value.names == names
            && |regs.value.values| == |Elems(names) * Elems(a.confounds.columns)|
            && (|regs.value.values| > 0 <==> exists n :: n in names && n in a.confounds.columns)
            && Rectangular(regs.value.values, |a.confounds.rows|)
  {
    var names := a.regressorsNames.value;
    var selected := RegressorColumns(names, a.confounds.columns, orders.fallback);
    assert selected == orders.fallback;
    DistinctCardinality(orders.fallback);
    InElems(orders.fallback);
    InElems(names);
    InElems(a.confounds.columns);
    HeadInElems(orders.fallback);
  }

  /** Missing confound values reach the regressors as 0.0; present ones unchanged. */
  lemma RegressorsReadMissingAsZero(a: Arguments, round: Rounding, orders: SetOrders, j: nat, i: nat)
    requires Admissible(a, orders)
    requires Bids2NipypeInfo(a, round, orders).Success?
    requires Bids2NipypeInfo(a, round, orders).value.info.regressors.Some?
    requires j < |Bids2NipypeInfo(a, round, orders).value.info.regressors.value.values|
    requires i < |a.confounds.rows|
    ensures var regs := Bids2NipypeInfo(a, round, orders).value.info.regressors.value;
            var column := RegressorColumns(regs.names, a.confounds.columns, orders.fallback)[j];
            var cell := a.confounds.rows[i][ColumnIndex(a.confounds.columns, column)];
            regs.values[j][i] == if cell.Missing? then 0.0 else cell.value
  {
  }

  /** The `decimals` argument changes nothing: values are rounded to 3 digits. */
  lemma DecimalsIgnored(a: Arguments, round: Rounding, orders: SetOrders, decimals: nat)
    requires Admissible(a, orders)
    ensures Admissible(a.(decimals := decimals), orders)
    ensures Bids2NipypeInfo(a.(decimals := decimals), round, orders) == Bids2NipypeInfo(a, round, orders)
  {
  }

  /** A call that leaves every optional argument at its default: it needs the six
      default motion columns, reads the regressors from every other column in
      ascending order, and gives amplitude 1.0 to each event when the events
      table has no amplitudes. */
  lemma DefaultArgumentsCall(scans: string, events: Events, confounds: Confounds,
                             round: Rounding, orders: SetOrders)
    requires Admissible(WithDefaults(scans, events, confounds), orders)
    ensures var r := Bids2NipypeInfo(WithDefaults(scans, events, confounds), round, orders);
            && (r.Success? <==> forall c :: c in DefaultMotionColumns ==> c in confounds.columns)
            && (r.Success? ==>
                  && Rectangular(r.value.motion, 6)
                  && (r.value.info.regressors.Some? ==>
                        r.value.info.regressors.value.names
                        == DefaultRegressorNames(confounds.columns, DefaultMotionColumns))
                  && (!events.hasAmplitudes ==>
                        forall i, k :: 0 <= i < |r.value.info.amplitudes| && 0 <= k < |r.value.info.amplitudes[i]| ==>
                          r.value.info.amplitudes[i][k] == 1.0))
  {
    var a := WithDefaults(scans, events, confounds);
    assert Motion(a) == DefaultMotionColumns;
    DefaultMotionColumnsValue();
    var r := Bids2NipypeInfo(a, round, orders);
    if r.Success? && !events.hasAmplitudes {
      AmplitudesDefaultWithoutColumn(a, round, orders);
    }
  }
}
