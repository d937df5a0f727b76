/** The per-state table behind the two choropleth maps: one row per state
    code present, in ascending key order, holding the stadium count and the
    mean capacity. */
module StateTable {
  import opened Records
  import opened Lexicographic

  /** The distinct values of column `f`, ascending, as a group-by lists them. */
  function GroupKeys(rows: seq<Stadium>, f: Field): (ks: seq<string>)
    ensures StrictlySorted(ks)
    ensures forall k :: k in ks <==> k in Keys(rows, f)
  {
    if |rows| == 0 then []
    else
      KeysOfTail(rows, f);
      Insert(GroupKeys(rows[1..], f), KeyOf(rows[0], f))
  }

  /** Group sizes, one `(key, size)` pair per listed key. */
  function SizesOf(rows: seq<Stadium>, ks: seq<string>): (sizes: seq<(string, nat)>)
    ensures |sizes| == |ks|
    ensures forall i :: 0 <= i < |ks| ==> sizes[i] == (ks[i], Count(rows, State, ks[i]))
  {
    if |ks| == 0 then [] else [(ks[0], Count(rows, State, ks[0]))] + SizesOf(rows, ks[1..])
  }

  /** Group means, one `(key, mean capacity)` pair per listed key; every key
      must occur in the rows so that no group is empty. */
  function MeansOf(rows: seq<Stadium>, ks: seq<string>): (means: seq<(string, real)>)
    requires forall k :: k in ks ==> k in Keys(rows, State)
    ensures |means| == |ks|
    ensures forall i :: 0 <= i < |ks| ==>
      means[i].0 == ks[i] && Count(rows, State, ks[i]) > 0 &&
      means[i].1 == Mean(CapacitySum(rows, State, ks[i]), Count(rows, State, ks[i]))
  {
    if |ks| == 0 then []
    else
      CountPositive(rows, State, ks[0]);
      [(ks[0], Mean(CapacitySum(rows, State, ks[0]), Count(rows, State, ks[0])))] + MeansOf(rows, ks[1..])
  }

  datatype StateRow = StateRow(state: string, count: nat, averageCapacity: real)

  /** Put the sizes table and the mean column side by side by position, the
      way a column's bare values are assigned to a frame. */
  function Zip(sizes: seq<(string, nat)>, means: seq<(string, real)>): (t: seq<StateRow>)
    requires |sizes| == |means|
    ensures |t| == |sizes|
    ensures forall i :: 0 <= i < |t| ==> t[i] == StateRow(sizes[i].0, sizes[i].1, means[i].1)
  {
    seq(|sizes|, i requires 0 <= i < |sizes| => StateRow(sizes[i].0, sizes[i].1, means[i].1))
  }

  function StatesOf(t: seq<StateRow>): (codes: seq<string>)
  {
    seq(|t|, i requires 0 <= i < |t| => t[i].state)
  }

  /** The per-state table. Both group-bys list the same ascending keys, so each
      row's mean belongs to the state named in that row. */
  function Table(rows: seq<Stadium>): (t: seq<StateRow>)
    ensures StrictlySorted(StatesOf(t))
    ensures forall s :: s in StatesOf(t) <==> s in Keys(rows, State)
    ensures forall i :: 0 <= i < |t| ==>
      t[i].count == Count(rows, State, t[i].state) && t[i].count >= 1 &&
      t[i].averageCapacity == Mean(CapacitySum(rows, State, t[i].state), t[i].count)
  {
    var ks := GroupKeys(rows, State);
    var t := Zip(SizesOf(rows, ks), MeansOf(rows, ks));
    assert StatesOf(t) == ks;
    t
  }

  function SumRowCounts(t: seq<StateRow>): nat
  {
    if |t| == 0 then 0 else t[0].count + SumRowCounts(t[1..])
  }

  lemma {:induction false} SumRowCountsIsSumCounts(rows: seq<Stadium>, t: seq<StateRow>)
    requires forall i :: 0 <= i < |t| ==> t[i].count == Count(rows, State, t[i].state)
    ensures SumRowCounts(t) == SumCounts(rows, State, StatesOf(t))
  {
    if |t| > 0 {
      assert StatesOf(t)[1..] == StatesOf(t[1..]);
      SumRowCountsIsSumCounts(rows, t[1..]);
    }
  }

  /** The counts column adds up to the number of stadiums. */
  lemma StateCountsSumToRowCount(rows: seq<Stadium>)
    ensures SumRowCounts(Table(rows)) == |rows|
  {
    var t := Table(rows);
    SumRowCountsIsSumCounts(rows, t);
    SortedIsDistinct(StatesOf(t));
    SumCountsCover(rows, State, StatesOf(t));
  }
}
