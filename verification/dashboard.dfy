/** One pass of the script from the loaded table to the data each chart
    receives. Widget values arrive as parameters; the charts themselves are
    not modelled. */
module Dashboard {
  import opened Outcomes
  import opened Records
  import opened StateNames
  import opened StateTable
  import opened ConferenceStats
  import opened BarSelection
  import opened YearRange

  datatype Views = Views(
    stateTable: seq<StateRow>,   // both choropleth maps
    bars: Bars,                  // bar chart
    sliderBounds: (int, int),    // ends of the year slider
    scatter: seq<(int, int)>)    // scatter plot, (built, capacity)

  /** Normalising states leaves every other column, and so the conference
      column, as it was. */
  lemma NormalizeKeepsConferences(rows: seq<Stadium>, lookup: string -> Option<string>)
    requires NormalizeStates(rows, lookup).Ok?
    ensures Keys(NormalizeStates(rows, lookup).value, Conference) == Keys(rows, Conference)
    ensures SortedByCapacity(rows) ==> SortedByCapacity(NormalizeStates(rows, lookup).value)
    ensures forall s :: s in rows ==> exists t :: t in NormalizeStates(rows, lookup).value && t.built == s.built
  {
    var clean := NormalizeStates(rows, lookup).value;
    forall k | k in Keys(rows, Conference)
      ensures k in Keys(clean, Conference)
    {
      var s :| s in rows && s.conference == k;
      var i :| 0 <= i < |rows| && rows[i] == s;
      assert clean[i] in clean;
    }
    forall k | k in Keys(clean, Conference)
      ensures k in Keys(rows, Conference)
    {
      var s :| s in clean && s.conference == k;
      var i :| 0 <= i < |clean| && clean[i] == s;
      assert rows[i] in rows;
    }
    forall s | s in rows
      ensures exists t :: t in clean && t.built == s.built
    {
      var i :| 0 <= i < |rows| && rows[i] == s;
      assert clean[i] in clean;
    }
  }

  /** What the scatter plot receives: points in the chosen years, in
      ascending capacity. */
  lemma ScatterInRange(rows: seq<Stadium>, lo: int, hi: int)
    requires SortedByCapacity(rows)
    ensures var pts := Points(FilterByYear(rows, lo, hi));
      (forall i, j :: 0 <= i < j < |pts| ==> pts[i].1 <= pts[j].1) &&
      (forall p :: p in pts ==> lo <= p.0 <= hi)
  {
  }

  /** Run the pipeline. The rows arrive sorted by capacity; `lookup` is the
      external state table, `checked` the 24 sidebar checkboxes and `range`
      the year slider's value. Failures surface in the order the script meets
      them: state lookup, then a missing conference, then an empty table. */
  method Build(rows: seq<Stadium>, lookup: string -> Option<string>, checked: seq<bool>, range: (int, int))
    returns (out: Result<Views>)
    requires |checked| == |ConferenceOrder|
    requires SortedByCapacity(rows)
    ensures NormalizeStates(rows, lookup).Err? ==> out == Err(NormalizeStates(rows, lookup).error)
    ensures out.Ok? <==>
      NormalizeStates(rows, lookup).Ok? &&
      AllEnabledPresent(Checkboxes(checked), ConferenceMeans(rows)) &&
      |rows| > 0
    ensures out.Ok? ==> SumRowCounts(out.value.stateTable) == |rows|
    ensures out.Ok? ==> out.value.bars.names == EnabledNames(Checkboxes(checked))
    ensures out.Ok? ==> |out.value.bars.capacities| == |out.value.bars.names|
    ensures out.Ok? ==> forall s :: s in rows ==> out.value.sliderBounds.0 <= s.built <= out.value.sliderBounds.1
    ensures out.Ok? ==> forall i, j :: 0 <= i < j < |out.value.scatter| ==> out.value.scatter[i].1 <= out.value.scatter[j].1
    ensures out.Ok? ==> forall p :: p in out.value.scatter ==> range.0 <= p.0 <= range.1
    ensures out.Ok? && range == out.value.sliderBounds ==> |out.value.scatter| == |rows|
  {
    var normalized := NormalizeStates(rows, lookup);
    if normalized.Err? {
      return Err(normalized.error);
    }
    var clean := normalized.value;
    NormalizeKeepsConferences(rows, lookup);

    var table := Table(clean);
    StateCountsSumToRowCount(clean);

    var means := ConferenceMeans(clean);
    assert means.Keys == ConferenceMeans(rows).Keys;
    var selected := SelectBars(Checkboxes(checked), means);
    if selected.Err? {
      return Err(selected.error);
    }

    var bounds := BuiltBounds(clean);
    if bounds.Err? {
      return Err(bounds.error);
    }
    var (lo, hi) := bounds.value;
    forall s | s in rows
      ensures lo <= s.built <= hi
    {
      var t :| t in clean && t.built == s.built;
    }

    var points := Points(FilterByYear(clean, range.0, range.1));
    ScatterInRange(clean, range.0, range.1);
    if range == (lo, hi) {
      FullRangeKeepsEveryRow(clean);
    }
    out := Ok(Views(table, selected.value, (lo, hi), points));
  }
}
