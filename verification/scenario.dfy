/** A three-stadium sample, listed in ascending capacity as the table is
    after its initial sort, and what the pipeline yields for it. */
module Scenario {
  import opened Records
  import opened ConferenceStats
  import opened YearRange

  const Sample: seq<Stadium> := [
    Stadium("Big Ten", "OH", 80000, 1922),
    Stadium("SEC", "AL", 90000, 1929),
    Stadium("Big Ten", "MI", 100000, 1927)]

  /** Two Big Ten stadiums of 100000 and 80000 seats average 90000. */
  lemma SampleConferenceMean()
    ensures ConferenceMeans(Sample)["Big Ten"] == 90000.0
  {
    assert Sample[0] in Sample;
    assert Count(Sample, Conference, "Big Ten") == 2;
    assert CapacitySum(Sample, Conference, "Big Ten") == 180000;
  }

  /** Years 1925 to 1930 keep the Alabama and Michigan stadiums, in capacity
      order: 1929 before 1927. */
  lemma SampleYearFilter()
    ensures SortedByCapacity(Sample)
    ensures Points(FilterByYear(Sample, 1925, 1930)) == [(1929, 90000), (1927, 100000)]
  {
  }
}
