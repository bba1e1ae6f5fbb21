# TerraTime core in Dafny

TerraTime ("The AI Earth Auditor") is a single-page Streamlit dashboard. The user
picks a place, and the app fetches Landsat 8 NDVI means for 2014 and 2024 from
Google Earth Engine. It turns them into 0–100 "green scores" and a percent change,
and shows the result to one of three personas (scientist, student, public).
Almost everything in `app.py` is UI and remote calls. This project models the
small deterministic core that decides what is computed and shown:

- `Wrappers`: `Option`, `Result`, and `Reply`. A `Reply` is what a remote call did:
  it returned a value or raised an exception of a given kind.
- `Text`: Python's `str.strip()`, using exactly the code points `str.isspace`
  accepts. Also `str(n)` and `int(...)` on decimal digit strings.
- `Years`: `range(lo, hi)` over calendar years, and the audit window 2014/2024.
- `Geocoder`: the Nominatim suggestion guard and the way both lookups turn
  failures into "nothing".
- `Ndvi`: the region of interest, `compute_mean_ndvi`, and the yearly series
  sampler, both as a function and as the source's loop.
- `Change`: the green score, the percent change with its zero-baseline guard, and
  the Loss/Gain/No-change label.
- `Session`: the splash → persona → report stage machine driven by button clicks.
- `Sidebar`: the address the audit runs on, the per-persona radius slider, and
  the optional preview year.
- `Audit`: the ordered checks in `app_screen` that decide whether a report is
  produced, and the values the report carries.

Remote services are parameters of function type. The Nominatim suggestion
lookup, the Nominatim single lookup, and Earth Engine's "image + mean reduction
for a year over a region" each return a `Reply`. A Python exception is a
`Raised` reply. Everything that holds "whatever the service does" is stated for
every such function. Every member is a function of its inputs and of the
services' answers, so two runs with the same inputs and answers give the same
numbers. Streamlit widgets are modelled by what the user did with
them:

- a radio or select box is the index of the option picked;
- a slider is the value it was moved to, or `None` when left alone;
- a checkbox is the value it was toggled to, or `None`;
- a button is a boolean, or a `Click` in the stage machine.

Earth Engine exceptions are handled in two different ways. Inside
`compute_ndvi_series` an exception makes only that year unavailable
(app.py:174-178). In `app_screen` an exception while computing the two
comparison means ends the run with its own error (app.py:643-651). That error
is separate from "insufficient data" (app.py:653-658), and `Audit.Gatekeep`
keeps the two apart.

## Model

| member | source | states |
|---|---|---|
| Text.Strip | app.py:387 | `strip()` returns an infix of its input framed by whitespace only on both sides, and neither starts nor ends with whitespace |
| Text.StripIdempotent | app.py:387-388 | stripping an already stripped query changes nothing, so the suggestion lookup's own guard sees the same length the sidebar checked |
| Text.StripEmptyIffAllSpace | app.py:624 | a string strips to nothing exactly when every character is whitespace, which is what makes an address blank |
| Text.DecimalString | app.py:423 | `str(y)` of a natural number is a non-empty string of decimal digits with no leading zero |
| Text.ParseDigits | app.py:427 | `int(...)` of a string of k decimal digits is a natural number below 10^k |
| Text.ParseDecimalRoundTrip | app.py:423-427 | reading back a printed year with `int(...)` gives the year it was printed from |
| Years.YearRange | app.py:171 | `range(lo, hi)` holds hi − lo years (none when lo ≥ hi), the i-th being lo + i |
| Years.YearRangeAscending | app.py:171 | the years of a range are strictly ascending |
| Geocoder.GetOsmSuggestions | app.py:76-96 | an empty query, or one shorter than 3 characters once stripped, gives no suggestions; otherwise a non-empty list from the service is passed on unchanged, and a timeout, a service error, any other exception raised by the lookup call, a None reply or an empty list all give no suggestions |
| Geocoder.GeocodeLocation | app.py:99-111 | every exception the geocoder raises becomes None; otherwise its answer, hit or None, is passed on |
| Ndvi.CreateRoi | app.py:117-124 | the circle is centred on the given point, and its radius in metres is the kilometre radius times 1000 |
| Ndvi.ComputeMeanNdvi | app.py:146-164 | a missing NDVI entry or a failing `getInfo` fetch gives "no value", exceptions from the image pipeline still propagate, and a delivered number is returned |
| Ndvi.YearSample | app.py:173-179 | a year's slot holds a value exactly when the service delivered one, and then holds that value; an exception gives "unavailable" |
| Ndvi.SeriesOf | app.py:167-180 | one slot per year of the inclusive range, e − s + 1 of them when s ≤ e, years ascending from s, each slot holding that year's sample |
| Ndvi.ComputeNdviSeries | app.py:171-180 | the loop builds the same series: as many values as years, years s, s+1, …, and a year's value is defined exactly when the service delivered one; no year is skipped |
| Ndvi.SeriesShapeIndependentOfService | app.py:173-179 | failing years never shorten the series: for any two services the years and the number of values are the same |
| Change.GreenScore | app.py:660-661 | the green score determines the NDVI it came from, maps [-1, 1] into [0, 100], and sends -1 to 0 and 1 to 100 |
| Change.GreenScoreStrictlyMonotonic | app.py:660-661 | a higher NDVI always gives a higher green score |
| Change.GreenScoreDifference | app.py:660-661 | the two green scores differ by 50 points per unit of NDVI difference |
| Change.PercentChange | app.py:663-667 | a zero baseline gives exactly 0 whatever the later mean; otherwise pct·\|a\| = (b − a)·100, and pct is negative, positive or zero exactly as b is below, above or equal to a |
| Change.RecoverLaterMean | app.py:663-665 | with a non-zero baseline, the later mean can be recovered from the baseline and the percent change |
| Change.ZeroBaselineMasksChange | app.py:666-667 | with a zero baseline every later mean is reported as "No significant change" |
| Change.ChangeLabelOf | app.py:497-502 | "Loss" exactly when pct < 0 and "Gain" exactly when pct > 0, each with magnitude \|pct\| > 0; "No significant change" exactly when pct = 0; the label gives back the signed pct |
| Change.LabelAgreesWithGreenScores | app.py:660-667 | with a non-zero baseline the label is a loss, a gain or no change exactly as the 2024 green score is lower than, higher than or equal to the 2014 one |
| Session.Settle | app.py:753-766 | before drawing, a missing stage becomes the splash stage and the report stage without a persona becomes the persona stage; the persona is kept and consistent states are left alone |
| Session.ScreenOf | app.py:753-767 | a fresh session and the splash stage see the splash; the persona stage sees the persona choice; the report stage with no persona sees the persona choice; the report for persona p is drawn exactly when the stage is the report stage and p is the stored persona |
| Session.Step | app.py:327-354 | the splash button leads to the persona choice (294-296); a persona button stores that persona and opens the report; "Change identity" (365-367) returns to the persona choice and keeps the persona; a click on a button not on screen acts like no click; a chosen persona is never cleared. A click may land on the screen drawn in the same step, which admits more click sequences than the browser can produce |
| Session.RunStaysConsistent | app.py:753-767 | after any sequence of clicks the report stage always has a persona, and a chosen persona stays chosen |
| Session.PersonaComesFromClick | app.py:327-354 | the stored persona of a session started fresh is one whose button was pressed |
| Session.ReportNeedsPersonaChoice | app.py:327-354 | the report for persona p is reached from a fresh session only if p's button was pressed at some point |
| Session.FreshStartsAtSplash | app.py:294-296 | a fresh session starts on the splash screen, and its button leads to the persona choice |
| Sidebar.SuggestionLabels | app.py:385-389 | suggestions are only looked up when the stripped query has at least 3 characters; then the labels are the addresses of the hits for the stripped query, and labels appear only if the service produced hits |
| Sidebar.ResolveAddress | app.py:391-403 | the address is the typed text unless a suggestion other than "Use exactly what I typed" was picked, in which case it is that suggestion; a hit whose label reads "Use exactly what I typed" also gives the typed text; it is always the typed text or one of the offered labels |
| Sidebar.RadiusSlider | app.py:408-457 | the scientist's radius slider spans 1..50 km and starts at 10; the student's and the public's span 1..20 km and start at 5 |
| Sidebar.SliderValue | app.py:409-415 | a slider always reports a value within its bounds, its initial value when left alone, and the chosen value when that is in bounds |
| Sidebar.YearOptions | app.py:421-425 | the year selector offers the placeholder, then the printed years 2014..2024 in order |
| Sidebar.YearPreview | app.py:421-469 | the preview year is none exactly when the placeholder is kept, and otherwise the year picked, always within 2014..2024 |
| Sidebar.RenderSidebar | app.py:360-473 | the address is the typed text or an offered label, and is the typed text when the query is too short for suggestions; the radius lies within the persona's bounds and defaults to 10 or 5 km; the overlay is on unless switched off; the preview year is none or within 2014..2024. The address is the one the radio pick resolves to, the radius is the slider's value, and the preview year is what `Sidebar.YearPreview` reads from the picked option, the year 2013 + i for option i |
| Audit.Gatekeep | app.py:624-658 | the checks run in order. A blank address fails first. Next, an address the geocoder cannot find. Next, an Earth Engine exception for either year. Last, a missing yearly mean, which ends the run with its own "insufficient data" error exactly when no exception was raised and a mean is missing. A run passes exactly when both means were delivered for the circle around the found place, and then carries that place, that circle and those means. Geocoding never fails as such, given a Nominatim client that was built without raising |
| Audit.BuildReport | app.py:660-671 | the report carries the green score of each mean and the percent change with its label. Scientists and students get an 11-year trend whose i-th slot is year 2014 + i with that year's sample, as `compute_ndvi_series(roi, 2014, 2024)` gives it; the public gets an empty trend. |
| Audit.RunAudit | app.py:619-671 | nothing happens until "Run Audit" is pressed; then the first failing check's error ends the run; a report is produced exactly when every check passes (the map calls after the checks are assumed to succeed), for the chosen address and radius and with the measured means, and the report is the one built from them |
| Audit.NeverGeocodingFailed | app.py:628-632 | the "Geocoding failed" branch is dead: every exception the lookup call raises is caught inside the adapter (the client's construction is assumed not to raise) |
| Audit.ReportScoresInRange | app.py:660-661 | when Earth Engine's means lie in [-1, 1], both green scores of a report lie in [0, 100] |
| Audit.PersonaDoesNotChangeValues | app.py:660-671 | every persona gets the same verdict and the same numbers from the same inputs; only the trend differs |
| Audit.AppScreen | app.py:606-671 | on the report screen the audit runs on exactly what the sidebar returns; no audit runs until the button is pressed. A blank typed address is rejected. A report's radius lies within the persona's bounds, and its preview year lies within 2014..2024 |
| Audit.WorkedExample | app.py:660-667 | means 0.65 (2014) and 0.40 (2024) give green scores 82.5 and 70.0. The change is a loss of 500/13 percent, about 38.46 |

## Left out

- Earth Engine internals are not modelled: the Landsat collection, the 60 % cloud filter, median compositing, the band ratio and the 30 m mean reduction (app.py:127-164). Each is a remote computation. They appear only as the service parameter's answer for a year and a region.
- `get_true_color_year`, `build_health_map`, the map layers and `create_timelapse_gif` are left out (app.py:183-250, 673-722). They produce imagery and a GIF file only and affect no computed value. The unguarded map calls among them can still end a run; see the `Audit.RunAudit` line below. For the same reason the report carries no timelapse or map.
- Nominatim and geopy are not modelled: only the guard and the failure collapse are kept. The service is trusted to honour `limit`; the model does not cap the list at `max_results`.
- `initialize_earth_engine` and its `st.stop()` (app.py:55-70) are left out. They concern credentials, which lie outside the core.
- All Streamlit rendering is left out: the wallpaper, markdown, captions, metrics, the trend chart, the timelapse viewer and download, and persona-specific copy. It displays values and decides none.
- Float behaviour is not modelled. NDVI, scores and percentages are exact reals, and the `:.1f` / `:.3f` formatting of labels such as "38.5% Vegetation Loss" is left out.
- `st.rerun` is modelled only through its effect on the stored stage. The redirect's rerun is folded into `Session.Settle`.
- Sessions are isolated per browser session in Streamlit, so the model has one session state and no concurrency.
- Audit.RunAudit: assumes that the map calls after the checks succeed. `geemap.Map`, `add_basemap`, the `addLayer` of the circle, `centerObject` and `to_streamlit` (app.py:673-674, 705, 720, 725) run outside any `try`. An exception there ends the run without a report, which the model does not represent.
- Audit.NeverGeocodingFailed: assumes that constructing the Nominatim client (app.py:83, 103) never raises. It is built outside the `try` of both adapters, so a raise at app.py:103 would reach the "geocoding failed" branch (app.py:630-632), and one at app.py:83 would escape the sidebar. The service parameters only model the lookup calls themselves.
- Audit.BuildReport: assumes Earth Engine answers a year and region the same way each time it is asked. `compute_ndvi_series` queries 2014 and 2024 again after the comparison means (app.py:644-648, 671). A transient failure on the second query would leave those trend slots unavailable while the report shows both means; here those slots always hold the measured means.
- Sidebar.SliderValue: clamps an out-of-range value into the bounds. The real widget cannot produce such a value at all, so the clamp only stands in for the widget's own range limit.
- Audit.WorkedExample: does not fix the address to "Amazon Basin". It holds for any non-blank address the geocoder finds, which includes that one.
