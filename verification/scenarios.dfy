/** Concrete calls of the run-info builder. */
module Scenarios {
  import opened Wrappers
  import opened Sequences
  import opened Strings
  import opened Tables
  import opened RunInfo
  import opened RunInfoProperties

  /** A confounds table with one motion column `m` and no rows. */
  const MotionOnly: Confounds := Confounds(["m"], [])

  /** A call on `rows`, with `m` as the only motion column and no regressors. */
  function CallOn(rows: seq<EventRow>): Arguments
  {
    Arguments("bold.nii.gz", Events(rows, false), MotionOnly, Some([]), Some(["m"]),
              DefaultDecimals, DefaultAmplitude)
  }

  /** Two events whose trial types are `A` and `AB`. */
  const Overlapping: seq<EventRow> := [EventRow("A", 0.0, 1.0, 0.0), EventRow("AB", 5.0, 1.0, 0.0)]

  lemma OverlappingTypes()
    ensures TrialTypes(Overlapping) == {"A", "AB"}
  {
    assert Overlapping[0] in Overlapping && Overlapping[1] in Overlapping;
  }

  lemma OverlappingCounts()
    ensures CountSelected(Overlapping, "A", PrefixMatch) == 2
    ensures CountSelected(Overlapping, "AB", PrefixMatch) == 1
  {
    assert "A"[..1][0] == 'A' && "AB"[..1] == "A" && "AB"[..2] == "AB";
  }

  lemma OverlappingSelections()
    ensures |SelectedRows(Overlapping, "A", PrefixMatch)| == 2
    ensures |SelectedRows(Overlapping, "AB", PrefixMatch)| == 1
  {
    OverlappingCounts();
    CountSelectedIsLength(Overlapping, "A", PrefixMatch);
    CountSelectedIsLength(Overlapping, "AB", PrefixMatch);
  }

  /** With trial types `A` and `AB`, condition `A` also picks the `AB` row:
      in either order of the conditions, `A`'s onset list holds both rows and
      the lists together hold three entries for two events. */
  lemma PrefixSelectionDoubleCounts(round: Rounding, orders: SetOrders)
    requires Admissible(CallOn(Overlapping), orders)
    ensures var r := Bids2NipypeInfo(CallOn(Overlapping), round, orders);
            && r.Success?
            && (exists i :: 0 <= i < |r.value.info.conditions| && r.value.info.conditions[i] == "A"
                              && |r.value.info.onsets[i]| == 2)
            && TotalEvents(r.value.info.onsets) == 3 > |Overlapping|
  {
    OverlappingTypes();
    OverlappingSelections();
    TwoConditions(CallOn(Overlapping), round, orders, "A", "AB");
  }

  /** Ten events: six of trial type `A`, four of trial type `B`. */
  const TenEvents: seq<EventRow> :=
    [EventRow("A", 0.0, 2.0, 0.0), EventRow("B", 10.0, 2.0, 0.0), EventRow("A", 20.0, 2.0, 0.0),
     EventRow("A", 30.0, 2.0, 0.0), EventRow("B", 40.0, 2.0, 0.0), EventRow("A", 50.0, 2.0, 0.0),
     EventRow("B", 60.0, 2.0, 0.0), EventRow("A", 70.0, 2.0, 0.0), EventRow("A", 80.0, 2.0, 0.0),
     EventRow("B", 90.0, 2.0, 0.0)]

  lemma TenEventsTypes()
    ensures TrialTypes(TenEvents) == {"A", "B"}
  {
    assert TenEvents[0] in TenEvents && TenEvents[1] in TenEvents;
  }

  lemma TenEventsCounts()
    ensures CountSelected(TenEvents, "A", PrefixMatch) == 6
    ensures CountSelected(TenEvents, "B", PrefixMatch) == 4
  {
    assert "B"[..1][0] == 'B' && "A"[..1][0] == 'A';
    assert !StartsWith("B", "A") && StartsWith("A", "A");
    assert !StartsWith("A", "B") && StartsWith("B", "B");
  }

  lemma TenEventsSelections()
    ensures |SelectedRows(TenEvents, "A", PrefixMatch)| == 6
    ensures |SelectedRows(TenEvents, "B", PrefixMatch)| == 4
  {
    TenEventsCounts();
    CountSelectedIsLength(TenEvents, "A", PrefixMatch);
    CountSelectedIsLength(TenEvents, "B", PrefixMatch);
  }

  /** Ten events of trial types `A` (six) and `B` (four) give two conditions,
      with six and four onsets, whichever order the conditions come in. */
  lemma TwoTrialTypesScenario(round: Rounding, orders: SetOrders)
    requires Admissible(CallOn(TenEvents), orders)
    ensures var r := Bids2NipypeInfo(CallOn(TenEvents), round, orders);
            && r.Success?
            && |r.value.info.conditions| == 2
            && forall i :: 0 <= i < 2 ==>
                 |r.value.info.onsets[i]| == if r.value.info.conditions[i] == "A" then 6 else 4
  {
    TenEventsTypes();
    TwoConditions(CallOn(TenEvents), round, orders, "A", "B");
    assert |SelectedRows(TenEvents, "A", PrefixMatch)| == 6 && |SelectedRows(TenEvents, "B", PrefixMatch)| == 4 by {
      TenEventsSelections();
    }
  }
}
