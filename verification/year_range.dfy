/** The scatter plot's inputs: the slider bounds (earliest and latest `built`
    year) and the rows whose `built` year lies in the chosen closed range. */
module YearRange {
  import opened Outcomes
  import opened Records

  function MinBuilt(rows: seq<Stadium>): (y: int)
    requires |rows| > 0
    ensures forall s :: s in rows ==> y <= s.built
    ensures exists s :: s in rows && s.built == y
  {
    if |rows| == 1 then rows[0].built
    else
      var rest := MinBuilt(rows[1..]);
      if rows[0].built <= rest then rows[0].built else rest
  }

  function MaxBuilt(rows: seq<Stadium>): (y: int)
    requires |rows| > 0
    ensures forall s :: s in rows ==> s.built <= y
    ensures exists s :: s in rows && s.built == y
  {
    if |rows| == 1 then rows[0].built
    else
      var rest := MaxBuilt(rows[1..]);
      if rows[0].built >= rest then rows[0].built else rest
  }

  /** The slider's two ends. An empty table has no minimum year, which the
      integer conversion rejects. */
  function BuiltBounds(rows: seq<Stadium>): (r: Result<(int, int)>)
    ensures r.Ok? <==> |rows| > 0
    ensures r.Err? ==> r.error == NoBuiltYears
    ensures r.Ok? ==> r.value.0 <= r.value.1
    ensures r.Ok? ==> forall s :: s in rows ==> r.value.0 <= s.built <= r.value.1
    ensures r.Ok? ==> (exists s :: s in rows && s.built == r.value.0) && (exists s :: s in rows && s.built == r.value.1)
  {
    if |rows| == 0 then Err(NoBuiltYears)
    else
      assert rows[0] in rows;
      Ok((MinBuilt(rows), MaxBuilt(rows)))
  }

  /** Keep the rows built in `[lo, hi]`, in their original order. */
  function FilterByYear(rows: seq<Stadium>, lo: int, hi: int): (kept: seq<Stadium>)
    ensures forall s :: s in kept <==> s in rows && lo <= s.built <= hi
    ensures |kept| <= |rows|
  {
    if |rows| == 0 then []
    else
      var rest := FilterByYear(rows[1..], lo, hi);
      if lo <= rows[0].built <= hi then [rows[0]] + rest else rest
  }

  /** Filtering a concatenation filters each part and keeps them in order. */
  lemma {:induction false} FilterAppend(a: seq<Stadium>, b: seq<Stadium>, lo: int, hi: int)
    ensures FilterByYear(a + b, lo, hi) == FilterByYear(a, lo, hi) + FilterByYear(b, lo, hi)
  {
    if |a| == 0 {
      assert a + b == b;
    } else {
      assert (a + b)[1..] == a[1..] + b;
      FilterAppend(a[1..], b, lo, hi);
    }
  }

  /** `a` can be obtained from `b` by deleting entries. */
  predicate IsSubsequence(a: seq<Stadium>, b: seq<Stadium>)
    decreases |b|
  {
    if |a| == 0 then true
    else if |b| == 0 then false
    else (a[0] == b[0] && IsSubsequence(a[1..], b[1..])) || IsSubsequence(a, b[1..])
  }

  lemma {:induction false} FilterIsSubsequence(rows: seq<Stadium>, lo: int, hi: int)
    ensures IsSubsequence(FilterByYear(rows, lo, hi), rows)
  {
    if |rows| > 0 {
      FilterIsSubsequence(rows[1..], lo, hi);
    }
  }

  /** Filtering keeps ascending capacity order. */
  lemma {:induction false} FilterKeepsCapacityOrder(rows: seq<Stadium>, lo: int, hi: int)
    requires SortedByCapacity(rows)
    ensures SortedByCapacity(FilterByYear(rows, lo, hi))
  {
    if |rows| > 0 {
      var rest := FilterByYear(rows[1..], lo, hi);
      assert SortedByCapacity(rows[1..]);
      FilterKeepsCapacityOrder(rows[1..], lo, hi);
      if lo <= rows[0].built <= hi {
        forall x | x in rest
          ensures rows[0].capacity <= x.capacity
        {
          var k :| 0 <= k < |rows[1..]| && rows[1..][k] == x;
          assert rows[k + 1] == x;
        }
        PrependKeepsCapacityOrder(rows[0], rest);
      }
    }
  }

  lemma PrependKeepsCapacityOrder(s: Stadium, rest: seq<Stadium>)
    requires SortedByCapacity(rest)
    requires forall x :: x in rest ==> s.capacity <= x.capacity
    ensures SortedByCapacity([s] + rest)
  {
  }

  /** A range covering every row keeps the whole table. */
  lemma {:induction false} FilterKeepsAll(rows: seq<Stadium>, lo: int, hi: int)
    requires forall s :: s in rows ==> lo <= s.built <= hi
    ensures FilterByYear(rows, lo, hi) == rows
  {
    if |rows| > 0 {
      assert rows[0] in rows;
      FilterKeepsAll(rows[1..], lo, hi);
      assert rows == [rows[0]] + rows[1..];
    }
  }

  /** The slider's default position, the full range of built years, keeps
      every row. */
  lemma FullRangeKeepsEveryRow(rows: seq<Stadium>)
    requires BuiltBounds(rows).Ok?
    ensures FilterByYear(rows, BuiltBounds(rows).value.0, BuiltBounds(rows).value.1) == rows
  {
    FilterKeepsAll(rows, BuiltBounds(rows).value.0, BuiltBounds(rows).value.1);
  }

  /** A single year nobody built in gives an empty selection, not an error. */
  lemma EmptyYearGivesNothing(rows: seq<Stadium>, y: int)
    requires forall s :: s in rows ==> s.built != y
    ensures FilterByYear(rows, y, y) == []
  {
  }

  /** The scatter plot's `(built, capacity)` points. */
  function Points(rows: seq<Stadium>): (pts: seq<(int, int)>)
    ensures |pts| == |rows|
    ensures forall i :: 0 <= i < |rows| ==> pts[i] == (rows[i].built, rows[i].capacity)
  {
    seq(|rows|, i requires 0 <= i < |rows| => (rows[i].built, rows[i].capacity))
  }
}

