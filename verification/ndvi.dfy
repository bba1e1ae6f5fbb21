/** The vegetation-index pipeline as the dashboard sees it: Earth Engine is a
    parameter that, for a year and a region, either raises or hands back a
    reduction whose NDVI entry may be missing or may fail to fetch. */
module Ndvi {
  import opened Wrappers
  import Years

  /** `create_roi`: the circle of `radiusMeters` around (lon, lat). */
  datatype Roi = Roi(lon: real, lat: real, radiusMeters: real)

  /** The analysis radius is given in kilometres and buffered in metres. */
  function CreateRoi(lon: real, lat: real, bufferKm: real): (r: Roi)
    ensures r.lon == lon && r.lat == lat
    ensures r.radiusMeters / 1000.0 == bufferKm
  {
    Roi(lon, lat, bufferKm * 1000.0)
  }

  /** What `reduceRegion(...).get("NDVI")` yields: no entry at all, or an entry
      whose `getInfo()` fetch returns a number or raises. */
  datatype Reduction = NoEntry | Entry(fetch: Reply<real>)

  /** `get_ndvi_image` followed by the mean reduction for one year over a region;
      `Raised` when an exception escapes them. */
  type NdviService = (int, Roi) -> Reply<Reduction>

  /** The service produced a number for that year. */
  predicate Delivered(reply: Reply<Reduction>) {
    reply.Returned? && reply.value.Entry? && reply.value.fetch.Returned?
  }

  /** `compute_mean_ndvi`: a missing entry or a failing fetch is "no value",
      exceptions from the image pipeline still propagate, and a delivered
      number is passed on. */
  function ComputeMeanNdvi(year: int, roi: Roi, service: NdviService): (r: Reply<Option<real>>)
    ensures r.Raised? <==> service(year, roi).Raised?
    ensures r.Returned? && r.value.Some? <==> Delivered(service(year, roi))
    ensures Delivered(service(year, roi)) ==> r.value.value == service(year, roi).value.fetch.value
  {
    match service(year, roi)
    case Raised(fault) => Raised(fault)
    case Returned(NoEntry) => Returned(None)
    case Returned(Entry(Raised(_))) => Returned(None)
    case Returned(Entry(Returned(v))) => Returned(Some(v))
  }

  /** One slot of the yearly series: the per-year `try` turns an exception into
      "unavailable" (None), exactly like a year without data. */
  function YearSample(year: int, roi: Roi, service: NdviService): (v: Option<real>)
    ensures v.Some? <==> Delivered(service(year, roi))
    ensures v.Some? ==> v.value == service(year, roi).value.fetch.value
  {
    match ComputeMeanNdvi(year, roi, service)
    case Raised(_) => None
    case Returned(mean) => mean
  }

  /** The trend data: parallel lists of years and their yearly means. */
  datatype Series = Series(years: seq<int>, values: seq<Option<real>>)

  /** `compute_ndvi_series(roi, start, end)`: one slot per year of the inclusive
      range, in ascending order, each holding that year's sample. */
  function SeriesOf(roi: Roi, startYear: int, endYear: int, service: NdviService): (s: Series)
    ensures |s.years| == if startYear <= endYear then endYear - startYear + 1 else 0
    ensures forall i :: 0 <= i < |s.years| ==> s.years[i] == startYear + i
    ensures |s.values| == |s.years|
    ensures forall i :: 0 <= i < |s.values| ==> s.values[i] == YearSample(startYear + i, roi, service)
  {
    var years := Years.YearRange(startYear, endYear + 1);
    Series(years, seq(|years|, i requires 0 <= i < |years| => YearSample(years[i], roi, service)))
  }

  /** The loop of `compute_ndvi_series`: build the year list, then append one
      sample per year, never skipping one. */
  method ComputeNdviSeries(roi: Roi, startYear: int, endYear: int, service: NdviService)
    returns (years: seq<int>, values: seq<Option<real>>)
    ensures |years| == if startYear <= endYear then endYear - startYear + 1 else 0
    ensures forall i :: 0 <= i < |years| ==> years[i] == startYear + i
    ensures |values| == |years|
    ensures forall i :: 0 <= i < |values| ==> (values[i].Some? <==> Delivered(service(years[i], roi)))
    ensures Series(years, values) == SeriesOf(roi, startYear, endYear, service)
  {
    years := Years.YearRange(startYear, endYear + 1);
    values := [];
    var k := 0;
    while k < |years|
      invariant 0 <= k <= |years|
      invariant |values| == k
      invariant forall i :: 0 <= i < k ==> values[i] == YearSample(years[i], roi, service)
    {
      var meanValue: Option<real>;
      match ComputeMeanNdvi(years[k], roi, service) {
        case Raised(_) => meanValue := None;
        case Returned(m) => meanValue := m;
      }
      values := values + [meanValue];
      k := k + 1;
    }
  }

  /** A failing year never shortens the series: whatever the service does,
      the years are the same and every year keeps its slot. */
  lemma SeriesShapeIndependentOfService(roi: Roi, startYear: int, endYear: int, s1: NdviService, s2: NdviService)
    ensures SeriesOf(roi, startYear, endYear, s1).years == SeriesOf(roi, startYear, endYear, s2).years
    ensures |SeriesOf(roi, startYear, endYear, s1).values| == |SeriesOf(roi, startYear, endYear, s2).values|
  {
  }
}
