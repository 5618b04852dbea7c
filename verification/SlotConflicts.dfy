// Overlap of time ranges.
module SlotConflicts {

  datatype TimeRange = TimeRange(startsAt: int, endsAt: int)

  predicate RangesOverlap(a: TimeRange, b: TimeRange) {
    a.startsAt < b.endsAt && a.endsAt > b.startsAt
  }

  predicate OverlapsAny(a: TimeRange, booked: seq<TimeRange>) {
    exists i :: 0 <= i < |booked| && RangesOverlap(a, booked[i])
  }

  function FindConflicts(candidates: seq<TimeRange>, booked: seq<TimeRange>): (r: seq<TimeRange>)
    ensures forall c :: c in r <==> c in candidates && OverlapsAny(c, booked)
  {
    if candidates == [] then []
    else
      (if OverlapsAny(candidates[0], booked) then [candidates[0]] else []) + FindConflicts(candidates[1..], booked)
  }

  predicate Covers(r: TimeRange, t: int) {
    r.startsAt <= t < r.endsAt
  }

  /** For ranges that are not empty, overlapping is sharing an instant. */
  lemma OverlapIsSharing(a: TimeRange, b: TimeRange)
    requires a.startsAt < a.endsAt && b.startsAt < b.endsAt
    ensures RangesOverlap(a, b) <==> exists t :: Covers(a, t) && Covers(b, t)
  {
    if RangesOverlap(a, b) {
      var t := if a.startsAt < b.startsAt then b.startsAt else a.startsAt;
      assert Covers(a, t) && Covers(b, t);
    }
  }
}
