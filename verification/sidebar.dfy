/** The sidebar of the report screen: which address the audit runs on, the
    persona's radius slider, the health-overlay toggle, the optional preview
    year and the "Run Audit" button. Widgets are modelled by what the user
    did with them: a radio or select box by the index of the option picked,
    a slider by the value it was moved to (None when left alone). */
module Sidebar {
  import opened Wrappers
  import Text
  import Years
  import Geocoder
  import Session

  /** The first suggestion option, which keeps the typed text. */
  const KeepTyped: string := "Use exactly what I typed"

  function Addresses(places: seq<Geocoder.Place>): (labels: seq<string>)
    ensures |labels| == |places|
    ensures forall i :: 0 <= i < |places| ==> labels[i] == places[i].address
  {
    seq(|places|, i requires 0 <= i < |places| => places[i].address)
  }

  /** The labels offered under the location box. Nothing is looked up unless
      the stripped query has at least three characters; then the lookup runs
      on the stripped query, its own guard always lets it through, and the
      labels are the addresses of the service's hits, or nothing on failure. */
  function SuggestionLabels(query: string, service: Geocoder.SuggestService): (labels: seq<string>)
    ensures |Text.Strip(query)| < Geocoder.MinQueryLength ==> labels == []
    ensures |Text.Strip(query)| >= Geocoder.MinQueryLength
              && Geocoder.HasHits(service(Text.Strip(query), Geocoder.DefaultMaxResults))
            ==> labels == Addresses(service(Text.Strip(query), Geocoder.DefaultMaxResults).value.value)
    ensures labels != [] ==> Geocoder.HasHits(service(Text.Strip(query), Geocoder.DefaultMaxResults))
  {
    var stripped := Text.Strip(query);
    if stripped != [] && |stripped| >= Geocoder.MinQueryLength then
      Text.StripIdempotent(query);
      Addresses(Geocoder.GetOsmSuggestions(stripped, Geocoder.DefaultMaxResults, service))
    else
      []
  }

  /** The address the audit runs on: the typed text (unstripped) unless a
      suggestion other than the keep-typed option was picked. `pick` indexes
      the radio's options, the keep-typed option first; with no suggestions
      there is no radio and the pick stays at its default 0. */
  function ResolveAddress(typed: string, labels: seq<string>, pick: nat): (address: string)
    requires pick <= |labels|
    ensures address == typed || address in labels
    ensures pick == 0 ==> address == typed
    ensures 0 < pick && labels[pick - 1] != KeepTyped ==> address == labels[pick - 1]
    ensures 0 < pick && labels[pick - 1] == KeepTyped ==> address == typed
    ensures address != typed ==> 0 < pick && address == labels[pick - 1]
  {
    if labels == [] then typed
    else
      var options := [KeepTyped] + labels;
      var choice := options[pick];
      if choice != KeepTyped then choice else typed
  }

  /** A slider's fixed bounds and initial value. */
  datatype Slider = Slider(min: int, max: int, initial: int)

  /** The radius slider of a persona: 1..50 km starting at 10 for the
      scientist, 1..20 km starting at 5 for the student and the public. */
  function RadiusSlider(persona: Session.Persona): (s: Slider)
    ensures s.min == 1 && s.min <= s.initial <= s.max
    ensures persona == Session.Scientist ==> s.max == 50 && s.initial == 10
    ensures persona != Session.Scientist ==> s.max == 20 && s.initial == 5
  {
    match persona
    case Scientist => Slider(1, 50, 10)
    case Student => Slider(1, 20, 5)
    case Public => Slider(1, 20, 5)
  }

  /** The value a slider reports: its initial value when left alone, otherwise
      where it was moved to, kept inside the bounds the widget enforces. */
  function SliderValue(s: Slider, moved: Option<int>): (v: int)
    requires s.min <= s.initial <= s.max
    ensures s.min <= v <= s.max
    ensures moved == None ==> v == s.initial
    ensures moved.Some? && s.min <= moved.value <= s.max ==> v == moved.value
  {
    match moved
    case None => s.initial
    case Some(x) => if x < s.min then s.min else if x > s.max then s.max else x
  }

  /** The first option of a persona's year selector, meaning "no preview year". */
  function YearPlaceholder(persona: Session.Persona): string {
    if persona == Session.Scientist then "(Auto context 2014–2024)" else "(No specific year)"
  }

  /** The year selector's options: the placeholder, then `str(y)` for each
      year of `range(2014, 2025)`. */
  function YearOptions(persona: Session.Persona): (options: seq<string>)
    ensures |options| == 12
    ensures options[0] == YearPlaceholder(persona)
    ensures forall i :: 1 <= i < 12 ==> options[i] == Text.DecimalString(Years.BaselineYear + i - 1)
  {
    var years := Years.YearRange(Years.BaselineYear, Years.ComparisonYear + 1);
    [YearPlaceholder(persona)] + seq(|years|, i requires 0 <= i < |years| => Text.DecimalString(years[i]))
  }

  /** The preview year: none when the placeholder is kept, otherwise the
      picked option read back with `int(...)`, which is the year it was
      printed from, so always a year of the audit window. */
  function YearPreview(persona: Session.Persona, pick: nat): (year: Option<int>)
    requires pick < 12
    ensures year == None <==> pick == 0
    ensures year.Some? ==> year.value == Years.BaselineYear + pick - 1
    ensures year.Some? ==> Years.BaselineYear <= year.value <= Years.ComparisonYear
  {
    var options := YearOptions(persona);
    var choice := options[pick];
    if choice == YearPlaceholder(persona) then None
    else
      assert pick != 0;
      Text.ParseDecimalRoundTrip(Years.BaselineYear + pick - 1);
      Some(Text.ParseDigits(choice))
  }

  /** What the user did with the sidebar's widgets during one run. */
  datatype Controls = Controls(
    typed: string,
    suggestionPick: nat,
    radiusMoved: Option<int>,
    healthToggled: Option<bool>,
    yearPick: nat,
    runPressed: bool)

  /** What the sidebar hands to the audit. */
  datatype Inputs = Inputs(
    address: string,
    radiusKm: int,
    showHealth: bool,
    yearPreview: Option<int>,
    runAudit: bool)

  /** The controls a run can produce: the pickers point at one of their options. */
  predicate WellFormed(c: Controls, service: Geocoder.SuggestService) {
    c.suggestionPick <= |SuggestionLabels(c.typed, service)| && c.yearPick < 12
  }

  /** `render_sidebar` for a persona: the resolved address, the radius within
      the persona's bounds, the overlay toggle (on unless switched off), the
      preview year and whether the audit button was pressed. */
  function RenderSidebar(persona: Session.Persona, c: Controls, service: Geocoder.SuggestService): (r: Inputs)
    requires WellFormed(c, service)
    ensures r.address == c.typed || r.address in SuggestionLabels(c.typed, service)
    ensures |Text.Strip(c.typed)| < Geocoder.MinQueryLength ==> r.address == c.typed
    ensures 1 <= r.radiusKm <= (if persona == Session.Scientist then 50 else 20)
    ensures c.radiusMoved == None ==> r.radiusKm == (if persona == Session.Scientist then 10 else 5)
    ensures r.showHealth == c.healthToggled.GetOr(true)
    ensures r.yearPreview.Some? ==> Years.BaselineYear <= r.yearPreview.value <= Years.ComparisonYear
    ensures r.yearPreview == None <==> c.yearPick == 0
    ensures r.runAudit == c.runPressed
    ensures r.address == ResolveAddress(c.typed, SuggestionLabels(c.typed, service), c.suggestionPick)
    ensures r.radiusKm == SliderValue(RadiusSlider(persona), c.radiusMoved)
    ensures r.yearPreview == YearPreview(persona, c.yearPick)
  {
    var labels := SuggestionLabels(c.typed, service);
    var address := ResolveAddress(c.typed, labels, c.suggestionPick);
    var slider := RadiusSlider(persona);
    var radius := SliderValue(slider, c.radiusMoved);
    var year := YearPreview(persona, c.yearPick);
    assert |Text.Strip(c.typed)| < Geocoder.MinQueryLength ==> labels == [];
    Inputs(address, radius, c.healthToggled.GetOr(true), year, c.runPressed)
  }
}
