/** The audit run of the report screen: the ordered checks that decide
    whether a report is produced, and the report's computed values. The
    geocoder and Earth Engine are parameters. */
module Audit {
  import opened Wrappers
  import Text
  import Years
  import Geocoder
  import Ndvi
  import Change
  import Session
  import Sidebar

  /** Why a run ended without a report, in the order the checks are made. */
  datatype AuditError =
    | BlankAddress       // the address is empty or only whitespace
    | GeocodingFailed    // the geocoder call itself raised
    | LocationNotFound   // the geocoder found nothing
    | NdviServiceError   // Earth Engine raised while computing the two means
    | InsufficientData   // one of the two yearly means is unavailable

  /** Everything the report screen shows that is computed rather than fetched. */
  datatype Report = Report(
    address: string,
    radiusKm: int,
    place: Geocoder.Place,
    roi: Ndvi.Roi,
    mean2014: real,
    mean2024: real,
    green2014: real,
    green2024: real,
    pctChange: real,
    change: Change.ChangeLabel,
    trend: Ndvi.Series,
    yearPreview: Option<int>,
    showHealth: bool)

  datatype Outcome = AwaitingRun | Failed(error: AuditError) | Produced(report: Report)

  /** The address check: empty or whitespace-only text is rejected. */
  predicate Blank(address: string) {
    address == [] || Text.Strip(address) == []
  }

  /** The scientist and the student get the yearly trend; the public does not. */
  predicate ShowsTrend(persona: Session.Persona) {
    persona == Session.Scientist || persona == Session.Student
  }

  /** What the checks establish when they all pass: where the place is, the
      circle analysed around it, and the two yearly means. */
  datatype Measured = Measured(place: Geocoder.Place, roi: Ndvi.Roi, mean2014: real, mean2024: real)

  /** The checks of an audit run, in order: the address must not be blank,
      the geocoder must find it, and Earth Engine must deliver both the 2014
      and the 2024 mean over the circle around it. The first check that fails
      decides the error; an exception from Earth Engine takes precedence over
      a missing mean because it aborts the computation of both. */
  function Gatekeep(address: string, radiusKm: int, lookup: Geocoder.LookupService,
                    service: Ndvi.NdviService): (r: Result<Measured, AuditError>)
    ensures Blank(address) ==> r == Failure(BlankAddress)
    ensures !Blank(address) && Geocoder.GeocodeLocation(address, lookup) == None ==> r == Failure(LocationNotFound)
    ensures !Blank(address) && Geocoder.GeocodeLocation(address, lookup).Some? ==>
              var place := Geocoder.GeocodeLocation(address, lookup).value;
              var roi := Ndvi.CreateRoi(place.longitude, place.latitude, radiusKm as real);
              && (r == Failure(NdviServiceError) <==>
                    service(Years.BaselineYear, roi).Raised? || service(Years.ComparisonYear, roi).Raised?)
              && (r == Failure(InsufficientData) <==>
                    && !service(Years.BaselineYear, roi).Raised?
                    && !service(Years.ComparisonYear, roi).Raised?
                    && !(Ndvi.Delivered(service(Years.BaselineYear, roi)) && Ndvi.Delivered(service(Years.ComparisonYear, roi))))
              && (r.Success? <==>
                    Ndvi.Delivered(service(Years.BaselineYear, roi)) && Ndvi.Delivered(service(Years.ComparisonYear, roi)))
              && (r.Success? ==>
                    && r.value.place == place
                    && r.value.roi == roi
                    && Ndvi.YearSample(Years.BaselineYear, roi, service) == Some(r.value.mean2014)
                    && Ndvi.YearSample(Years.ComparisonYear, roi, service) == Some(r.value.mean2024))
    ensures r != Failure(GeocodingFailed)
  {
    if Blank(address) then Failure(BlankAddress)
    else
      match Geocoder.GeocodeLocation(address, lookup)
      case None => Failure(LocationNotFound)
      case Some(place) =>
        var roi := Ndvi.CreateRoi(place.longitude, place.latitude, radiusKm as real);
        var m2014 := Ndvi.ComputeMeanNdvi(Years.BaselineYear, roi, service);
        var m2024 := Ndvi.ComputeMeanNdvi(Years.ComparisonYear, roi, service);
        if m2014.Raised? || m2024.Raised? then Failure(NdviServiceError)
        else if m2014.value.None? || m2024.value.None? then Failure(InsufficientData)
        else Success(Measured(place, roi, m2014.value.value, m2024.value.value))
  }

  /** The report built from the measurements: the green score of each mean,
      the percent change between them with its label, and a trend of one
      slot per year 2014..2024 exactly for the scientist and the student. */
  function BuildReport(persona: Session.Persona, input: Sidebar.Inputs, m: Measured,
                       service: Ndvi.NdviService): (r: Report)
    ensures r.green2014 == Change.GreenScore(m.mean2014) && r.green2024 == Change.GreenScore(m.mean2024)
    ensures r.pctChange == Change.PercentChange(m.mean2014, m.mean2024)
    ensures r.change == Change.ChangeLabelOf(r.pctChange)
    ensures ShowsTrend(persona) ==> |r.trend.years| == 11 && |r.trend.values| == 11
                                    && r.trend.years[0] == Years.BaselineYear
    ensures ShowsTrend(persona) ==>
              forall i :: 0 <= i < 11 ==>
                && r.trend.years[i] == Years.BaselineYear + i
                && r.trend.values[i] == Ndvi.YearSample(Years.BaselineYear + i, m.roi, service)
    ensures !ShowsTrend(persona) ==> r.trend == Ndvi.Series([], [])
  {
    var pct := Change.PercentChange(m.mean2014, m.mean2024);
    Report(input.address, input.radiusKm, m.place, m.roi, m.mean2014, m.mean2024,
           Change.GreenScore(m.mean2014), Change.GreenScore(m.mean2024), pct, Change.ChangeLabelOf(pct),
           if ShowsTrend(persona)
           then Ndvi.SeriesOf(m.roi, Years.BaselineYear, Years.ComparisonYear, service)
           else Ndvi.Series([], []),
           input.yearPreview, input.showHealth)
  }

  /** `app_screen` after the sidebar: nothing happens until the button is
      pressed; then the checks run, and a report is produced exactly when
      they all pass. */
  function RunAudit(persona: Session.Persona, input: Sidebar.Inputs, lookup: Geocoder.LookupService,
                    service: Ndvi.NdviService): (o: Outcome)
    ensures !input.runAudit <==> o == AwaitingRun
    ensures input.runAudit && Gatekeep(input.address, input.radiusKm, lookup, service).Failure? ==>
              o == Failed(Gatekeep(input.address, input.radiusKm, lookup, service).error)
    ensures o.Produced? <==> input.runAudit && Gatekeep(input.address, input.radiusKm, lookup, service).Success?
    ensures o.Produced? ==>
              var m := Gatekeep(input.address, input.radiusKm, lookup, service).value;
              && o.report.address == input.address
              && o.report.radiusKm == input.radiusKm
              && o.report.mean2014 == m.mean2014 && o.report.mean2024 == m.mean2024
              && o.report.yearPreview == input.yearPreview
              && o.report.showHealth == input.showHealth
              && o.report == BuildReport(persona, input, m, service)
  {
    if !input.runAudit then AwaitingRun
    else
      match Gatekeep(input.address, input.radiusKm, lookup, service)
      case Failure(e) => Failed(e)
      case Success(m) => Produced(BuildReport(persona, input, m, service))
  }

  /** The geocoder adapter never raises, so no audit run ends with the
      "geocoding failed" error. */
  lemma NeverGeocodingFailed(persona: Session.Persona, input: Sidebar.Inputs, lookup: Geocoder.LookupService,
                             service: Ndvi.NdviService)
    ensures RunAudit(persona, input, lookup, service) != Failed(GeocodingFailed)
  {
  }

  /** When Earth Engine's means lie in [-1, 1], so do the report's green
      scores lie in [0, 100]. */
  lemma ReportScoresInRange(persona: Session.Persona, input: Sidebar.Inputs, lookup: Geocoder.LookupService,
                            service: Ndvi.NdviService)
    requires RunAudit(persona, input, lookup, service).Produced?
    requires var r := RunAudit(persona, input, lookup, service).report;
             -1.0 <= r.mean2014 <= 1.0 && -1.0 <= r.mean2024 <= 1.0
    ensures var r := RunAudit(persona, input, lookup, service).report;
            0.0 <= r.green2014 <= 100.0 && 0.0 <= r.green2024 <= 100.0
  {
  }

  /** The persona changes what is shown, never what is computed: the same
      inputs give every persona the same verdict and the same numbers. */
  lemma PersonaDoesNotChangeValues(p1: Session.Persona, p2: Session.Persona, input: Sidebar.Inputs,
                                   lookup: Geocoder.LookupService, service: Ndvi.NdviService)
    ensures var o1, o2 := RunAudit(p1, input, lookup, service), RunAudit(p2, input, lookup, service);
            && o1.Produced? == o2.Produced?
            && (!o1.Produced? ==> o1 == o2)
            && (o1.Produced? ==> o1.report.(trend := o2.report.trend) == o2.report)
  {
  }

  /** The report screen for a persona: the sidebar feeds the audit run. */
  function AppScreen(persona: Session.Persona, c: Sidebar.Controls, suggest: Geocoder.SuggestService,
                     lookup: Geocoder.LookupService, service: Ndvi.NdviService): (o: Outcome)
    requires Sidebar.WellFormed(c, suggest)
    ensures !c.runPressed <==> o == AwaitingRun
    ensures c.runPressed && Blank(c.typed) ==> o == Failed(BlankAddress)
    ensures o.Produced? ==> 1 <= o.report.radiusKm <= (if persona == Session.Scientist then 50 else 20)
    ensures o.Produced? && o.report.yearPreview.Some? ==>
              Years.BaselineYear <= o.report.yearPreview.value <= Years.ComparisonYear
    ensures o == RunAudit(persona, Sidebar.RenderSidebar(persona, c, suggest), lookup, service)
  {
    var input := Sidebar.RenderSidebar(persona, c, suggest);
    RunAudit(persona, input, lookup, service)
  }

  /** The place the worked example's geocoder finds for any address. */
  const ExamplePlace: Geocoder.Place := Geocoder.Place("Amazon Basin", -3.4653, -62.2159)

  function ExampleLookup(address: string): Reply<Option<Geocoder.Place>> {
    Returned(Some(ExamplePlace))
  }

  /** Earth Engine in the worked example: mean NDVI 0.65 in 2014, 0.40 otherwise. */
  function ExampleService(year: int, roi: Ndvi.Roi): Reply<Ndvi.Reduction> {
    Returned(Ndvi.Entry(Returned(if year == Years.BaselineYear then 0.65 else 0.40)))
  }

  /** A worked run: any non-blank address, found by the geocoder, a 10 km
      circle, means of 0.65 in 2014 and 0.40 in 2024. The scores are 82.5 and
      70, and the change is a loss of 500/13 percent (about 38.46). */
  lemma WorkedExample(persona: Session.Persona, address: string)
    requires !Blank(address)
    ensures var o := RunAudit(persona, Sidebar.Inputs(address, 10, true, None, true),
                              ExampleLookup, ExampleService);
            && o.Produced?
            && o.report.green2014 == 82.5
            && o.report.green2024 == 70.0
            && o.report.pctChange == -500.0 / 13.0
            && o.report.change == Change.Loss(500.0 / 13.0)
  {
  }
}
