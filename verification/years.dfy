/** Calendar-year ranges, as Python's `range(lo, hi)` produces them. */
module Years {

  /** The audit window: the baseline and comparison years of every report. */
  const BaselineYear: int := 2014
  const ComparisonYear: int := 2024

  /** `list(range(lo, hi))`: the years lo, lo+1, ..., hi-1 in ascending order,
      and nothing when lo >= hi. */
  function YearRange(lo: int, hi: int): (r: seq<int>)
    ensures |r| == if lo <= hi then hi - lo else 0
    ensures forall i :: 0 <= i < |r| ==> r[i] == lo + i
    decreases hi - lo
  {
    if lo >= hi then [] else [lo] + YearRange(lo + 1, hi)
  }

  /** The years of a range are strictly ascending, hence distinct. */
  lemma YearRangeAscending(lo: int, hi: int, i: int, j: int)
    requires 0 <= i < j < |YearRange(lo, hi)|
    ensures YearRange(lo, hi)[i] < YearRange(lo, hi)[j]
  {
  }
}
