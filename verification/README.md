# NCAA stadium dashboard: the aggregation pipeline

The dashboard loads one table of NCAA football stadiums and draws five views
from it: a point map, a bar chart of mean capacity per conference, a scatter
plot of construction year against capacity, and two state maps (stadiums per
state, mean capacity per state). This project models the data work behind
those views as pure Dafny functions over an immutable sequence of stadium
rows `Stadium(conference, state, capacity, built)`, and proves what each
step computes.

Modules, one per step of the script:

- `Records`: the row type, and the reference definitions that every aggregate
  is checked against: per-key row count `Count`, per-key capacity sum
  `CapacitySum` and `Mean`. It also holds the counting lemmas shared by the
  conference and state views.
- `StateNames`: state normalisation. A state string containing `D.C.` becomes
  `DC`. Any other string goes to an external name-to-abbreviation lookup,
  passed in as a function `string -> Option<string>`.
- `Lexicographic`: code-point string order, and insertion into a strictly
  ascending key list. This is the order in which a group-by lists its keys.
- `StateTable`: the per-state table. It has one row per state code, in
  ascending order, with the stadium count and the mean capacity.
- `ConferenceStats`: the three conference dictionaries. These are the tally,
  the capacity totals and the means, each built by a left-to-right fold that
  follows the script's loop bodies.
- `BarSelection`: the 24 sidebar checkboxes in their fixed order. Each ticked
  conference appends its mean and its name to two parallel lists.
- `YearRange`: the year slider's bounds and the inclusive year filter that
  feeds the scatter plot.
- `Theme`: the colour-name to RGB lookup.
- `Dashboard`: one pass from the loaded rows to the input of every chart
  except the point map, with widget values as parameters.
- `Scenario`: a three-stadium sample, in the capacity order the script's
  sort gives it, and what the pipeline yields for it.
- `Outcomes`: `Option`, `Result`, and one `Failure` per exception the script
  can raise on well-typed rows.

Notes on the script's behaviour:

- Only a string containing `D.C.` skips the state lookup. `District of
  Columbia` goes to the lookup like any other name.
- The checkboxes are a fixed list of 24 names, all ticked at first; they are
  not derived from the data. A ticked conference that is absent from the data
  is a missing dictionary key (`MissingConference`), raised for the first
  such conference in checkbox order.
- The mean of every conference is computed first; the checkboxes select
  among the means afterwards.
- The year range need not satisfy `lo <= hi`. An inverted range, or one no
  stadium falls in, selects nothing.

## Model

| member | source | states |
|---|---|---|
| ConferenceStats.Tally | GiaquintoCS230FinalProject.py:166-171 | the tally's keys are exactly the conferences that occur; each value is that conference's row count, at least 1 |
| ConferenceStats.TallyFromCounts | GiaquintoCS230FinalProject.py:167-171 | the fold adds each conference's row count to what the dictionary held, and adds exactly the conferences met |
| ConferenceStats.TallySumsToRowCount | GiaquintoCS230FinalProject.py:166-171 | read over any duplicate-free listing of its keys, the tally's values add up to the number of rows |
| ConferenceStats.AccumulateFromSums | GiaquintoCS230FinalProject.py:179-180 | the accumulation loop adds each conference's capacity sum to the starting value, and reads a missing key as 0 |
| ConferenceStats.CapacityTotals | GiaquintoCS230FinalProject.py:174-180 | the keys are the tally's keys plus any conference that occurs; each value is the capacity sum over that conference's rows |
| ConferenceStats.Averages | GiaquintoCS230FinalProject.py:183-184 | defined only when every total has a tally entry above zero; each result times its count gives back the total |
| ConferenceStats.ConferenceMeans | GiaquintoCS230FinalProject.py:166-184 | the means have exactly the present conferences as keys; every divisor is at least 1; each value is that conference's mean capacity |
| ConferenceStats.SingleStadiumMean | GiaquintoCS230FinalProject.py:183-184 | a conference with one stadium has that stadium's capacity as its mean |
| BarSelection.SelectBars | GiaquintoCS230FinalProject.py:187-261 | succeeds exactly when every ticked conference is a key; then the names are the ticked names in checkbox order, the two lists have equal length, and the i-th capacity is the i-th name's mean; otherwise the error names the first ticked missing conference |
| BarSelection.EnabledNamesAppend | GiaquintoCS230FinalProject.py:187-261 | selection over consecutive checkbox runs concatenates, so checkbox order is kept |
| BarSelection.EnabledNamesMembership | GiaquintoCS230FinalProject.py:187-261 | a name is selected exactly when some ticked checkbox carries it; unticked conferences are absent |
| BarSelection.AllTickedSelectsEveryConference | GiaquintoCS230FinalProject.py:140-163 | with every checkbox ticked (the default), the selected names are all 24 conferences in sidebar order |
| YearRange.BuiltBounds | GiaquintoCS230FinalProject.py:270-271 | defined exactly for a non-empty table; the ends are the smallest and largest built year, both attained, and every row lies between them |
| YearRange.FilterByYear | GiaquintoCS230FinalProject.py:275 | a row is kept exactly when it is in the table and built within the inclusive range |
| YearRange.FilterAppend | GiaquintoCS230FinalProject.py:275 | filtering a concatenation is the concatenation of the filtered parts |
| YearRange.FilterIsSubsequence | GiaquintoCS230FinalProject.py:275 | the kept rows are a subsequence of the table, so their relative order is the original one |
| YearRange.FilterKeepsCapacityOrder | GiaquintoCS230FinalProject.py:275 | rows sorted by capacity stay sorted by capacity after filtering |
| YearRange.FilterKeepsAll | GiaquintoCS230FinalProject.py:275 | a range containing every row's year keeps the table unchanged |
| YearRange.FullRangeKeepsEveryRow | GiaquintoCS230FinalProject.py:270-275 | the slider's default position, from earliest to latest built year, keeps every row |
| YearRange.EmptyYearGivesNothing | GiaquintoCS230FinalProject.py:275 | a one-year range nobody built in yields an empty selection, not an error |
| StateNames.HasSubstringIsOccurs | GiaquintoCS230FinalProject.py:81 | the scanning substring test agrees with "occurs at some position" in both directions |
| StateNames.NormalizeState | GiaquintoCS230FinalProject.py:81 | a string containing "D.C." gives "DC"; otherwise the lookup's abbreviation, or an unknown-state error when the lookup has none |
| StateNames.DistrictIgnoresLookup | GiaquintoCS230FinalProject.py:81 | for a "D.C." string, any two lookups give the same result, "DC" |
| StateNames.DistrictSuffix | GiaquintoCS230FinalProject.py:81 | every string ending in "D.C." normalises to "DC" |
| StateNames.NormalizeStates | GiaquintoCS230FinalProject.py:81-82 | succeeds exactly when every row normalises; then the rows are unchanged except the state, which is replaced by its abbreviation; a failure is some row's own failure |
| Lexicographic.Insert | GiaquintoCS230FinalProject.py:85 | inserting into a strictly ascending key list keeps it strictly ascending, adds exactly the new key, and is a no-op for a present key |
| StateTable.GroupKeys | GiaquintoCS230FinalProject.py:85 | the group keys are strictly ascending and are exactly the values present in the column |
| StateTable.MeansOf | GiaquintoCS230FinalProject.py:88 | one entry per key, labelled with that key, from a non-empty group, holding that group's mean capacity |
| StateTable.Table | GiaquintoCS230FinalProject.py:85-89 | one row per state present, in strictly ascending order, none zero-filled; each count is the number of rows for that state, and each mean is that same state's mean capacity |
| StateTable.StateCountsSumToRowCount | GiaquintoCS230FinalProject.py:85-89 | the counts column adds up to the number of rows |
| Theme.ColorToRgb | GiaquintoCS230FinalProject.py:67-73 | a code exists exactly for the three radio choices; it has three channels, each in 0..255 |
| Theme.ThemeCodesDistinct | GiaquintoCS230FinalProject.py:23-24 | each radio choice has a code, and distinct choices have distinct codes |
| Theme.ThemeCodes | GiaquintoCS230FinalProject.py:67-73 | Red is 255,0,0; Green is 0,128,0; Blue is 0,0,255 |
| Dashboard.NormalizeKeepsConferences | GiaquintoCS230FinalProject.py:81-82 | state normalisation keeps the conference keys, the capacity order and every built year |
| Dashboard.ScatterInRange | GiaquintoCS230FinalProject.py:275-276 | scatter points have years within the chosen range and ascend in capacity |
| Dashboard.Build | GiaquintoCS230FinalProject.py:75-276 | a state lookup failure comes first; otherwise success exactly when every ticked conference occurs and the table is non-empty; the state counts add up to the row count, the bar names follow the ticked checkboxes, the slider bounds enclose every year, and the default slider keeps every point |
| Scenario.SampleConferenceMean | GiaquintoCS230FinalProject.py:166-184 | two Big Ten stadiums of 100000 and 80000 seats give a mean of 90000 |
| Scenario.SampleYearFilter | GiaquintoCS230FinalProject.py:270-276 | on the capacity-sorted sample, years 1925 to 1930 keep the 1929 and then the 1927 stadium |

## Left out

- Streamlit widgets: the colour radio, the 24 checkboxes and the year slider. Their values are parameters of `Dashboard.Build`.
- `st.markdown`, `st.title`, `st.write` and every chart call. Drawing is done by matplotlib, plotly and pydeck, which are outside this model.
- Reading the CSV file (I/O). The rows arrive as a parameter.
- The sort by capacity (line 76) is not modelled as an algorithm. `Dashboard.Build` requires rows that are already sorted by capacity.
- `us.states.lookup(...).abbr` is an external library. It is the `lookup` parameter, and a lookup miss becomes `UnknownState`.
- The stadium name column only feeds the point map's tooltip. The latitude and longitude columns and the map's mean coordinates (lines 109-113) are floating point and only feed the point map.
- Rows arrive well-typed: every state is a string, and capacity and built year are integers. A missing cell is not modelled: it would fail the "D.C." test on line 81 or the `int()` casts on lines 180 and 270-271. Those casts are therefore identities here.
- The colour theme's use by the charts (lines 24-64, 120-125). Only the RGB lookup is modelled, and `Dashboard.Build` does not produce the point map's input.
- Python float division. Means are exact reals, so rounding is not modelled.
- Column renaming in the state table (line 87) has no effect on the data and is not modelled.
- The per-state grouping is built directly in ascending key order. pandas' own grouping algorithm is not modelled; only its key order and its results are.
- Dashboard.Build: states only the table-wide facts about each view (count sum, bar names, bounds, scatter order and range). The per-entry contents are stated by `StateTable.Table`, `BarSelection.SelectBars` and `ConferenceStats.ConferenceMeans`, which it calls.
