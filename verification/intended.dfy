/** The builder as its grouping evidently intends: a condition picks the rows
    of its own trial type only, values are rounded to `decimals` digits, and
    both set orders are fixed (trial types by first appearance, fallback
    regressor names in request order). */
module Intended {
  import opened Wrappers
  import opened Sequences
  import opened Tables
  import opened RunInfo
  import opened RunInfoProperties

  /** Deterministic replacements for Python's set iteration orders. */
  function IntendedOrders(a: Arguments): (o: SetOrders)
    requires WellFormed(a.confounds)
    ensures Admissible(a, o)
    ensures SubsequenceOf(o.conditions, TrialTypeColumn(a.events.rows))
    ensures FirstAppearanceOrder(o.conditions, TrialTypeColumn(a.events.rows))
    ensures SubsequenceOf(o.fallback, Requested(a))
    ensures FirstAppearanceOrder(o.fallback, Present(Requested(a), a.confounds.columns))
  {
    var present := Present(Requested(a), a.confounds.columns);
    var fallback := Dedup(present);
    SubsequenceTransitive(fallback, present, Requested(a));
    SetOrders(Dedup(TrialTypeColumn(a.events.rows)), fallback)
  }

  /** The corrected builder. Conditions are the distinct trial types in order
      of first appearance, and each condition's lists come from exactly the rows
      of that trial type, rounded to `decimals` digits. */
  function Bids2NipypeInfoIntended(a: Arguments, round: Rounding): (r: Result<Output, seq<string>>)
    requires WellFormed(a.confounds)
    ensures r.Success? <==> forall c :: c in Motion(a) ==> c in a.confounds.columns
    ensures r.Success? ==>
              var info := r.value.info;
              && IsEnumeration(info.conditions, TrialTypes(a.events.rows))
              && SubsequenceOf(info.conditions, TrialTypeColumn(a.events.rows))
              && FirstAppearanceOrder(info.conditions, TrialTypeColumn(a.events.rows))
              && |info.onsets| == |info.conditions|
              && |info.durations| == |info.conditions|
              && |info.amplitudes| == |info.conditions|
              && forall i :: 0 <= i < |info.conditions| ==>
                   ConditionEvents(info.onsets[i], info.durations[i], info.amplitudes[i])
                   == EventsFor(a.events, info.conditions[i], ExactMatch, a.decimals, a.amplitude, round)
    ensures r.Success? ==>
              var regs := r.value.info.regressors;
              && (regs.Some? <==> Requested(a) != [])
              && (regs.Some? ==>
                    var selected := RegressorColumns(Requested(a), a.confounds.columns, IntendedOrders(a).fallback);
                    && regs.value.names == Requested(a)
                    && SubsequenceOf(selected, Requested(a))
                    && regs.value.values == RegressorValues(a.confounds, selected))
  {
    SubsequenceReflexive(Requested(a));
    Assemble(ExactMatch, a.decimals, a, round, IntendedOrders(a))
  }

  /** With exact selection every event row is listed exactly once: the onset
      lists together hold as many entries as the table has rows, and each
      condition's lists hold only rows of its own trial type. */
  lemma IntendedListsEachRowOnce(a: Arguments, round: Rounding)
    requires WellFormed(a.confounds)
    requires Bids2NipypeInfoIntended(a, round).Success?
    ensures var info := Bids2NipypeInfoIntended(a, round).value.info;
            && TotalEvents(info.onsets) == |a.events.rows|
            && forall i :: 0 <= i < |info.conditions| ==>
                 forall r :: r in SelectedRows(a.events.rows, info.conditions[i], ExactMatch) ==>
                   r.trialType == info.conditions[i]
  {
    var info := Bids2NipypeInfoIntended(a, round).value.info;
    var rows := a.events.rows;
    InElems(info.conditions);
    forall i | 0 <= i < |info.conditions|
      ensures |info.onsets[i]| == |SelectedRows(rows, info.conditions[i], ExactMatch)|
    {
      var l := EventsFor(a.events, info.conditions[i], ExactMatch, a.decimals, a.amplitude, round);
      assert l.onsets == info.onsets[i];
    }
    TotalEventsIsPicked(info.onsets, rows, info.conditions, ExactMatch);
    forall r | r in rows
      ensures r.trialType in info.conditions
    {
      assert r.trialType in TrialTypes(rows);
    }
    PickedCoversRows(rows, info.conditions, ExactMatch);
  }
}
