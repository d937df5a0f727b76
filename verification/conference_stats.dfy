/** The per-conference dictionaries: the stadium tally, the capacity totals
    and the mean capacity, each built by a left-to-right pass over the rows. */
module ConferenceStats {
  import opened Lexicographic
  import opened Records

  /** One tally step: a new conference starts at 1, a known one goes up by 1. */
  function Bump(tally: map<string, nat>, c: string): map<string, nat>
  {
    if c !in tally then tally[c := 1] else tally[c := tally[c] + 1]
  }

  function TallyFrom(tally: map<string, nat>, rows: seq<Stadium>): map<string, nat>
    decreases |rows|
  {
    if |rows| == 0 then tally else TallyFrom(Bump(tally, rows[0].conference), rows[1..])
  }

  /** Folding the rows into a tally adds each conference's row count to what
      the tally already held, and adds exactly the conferences that occur. */
  lemma {:induction false} TallyFromCounts(tally: map<string, nat>, rows: seq<Stadium>)
    decreases |rows|
    ensures TallyFrom(tally, rows).Keys == tally.Keys + Keys(rows, Conference)
    ensures forall c :: c in TallyFrom(tally, rows) ==>
      TallyFrom(tally, rows)[c] == (if c in tally then tally[c] else 0) + Count(rows, Conference, c)
  {
    if |rows| > 0 {
      KeysOfTail(rows, Conference);
      TallyFromCounts(Bump(tally, rows[0].conference), rows[1..]);
    }
  }

  /** The stadium count per conference. */
  function Tally(rows: seq<Stadium>): (tally: map<string, nat>)
    ensures tally.Keys == Keys(rows, Conference)
    ensures forall c :: c in tally ==> tally[c] == Count(rows, Conference, c) && tally[c] >= 1
  {
    TallyFromCounts(map[], rows);
    var t := TallyFrom(map[], rows);
    assert forall c :: c in t ==> t[c] >= 1 by {
      forall c | c in t ensures t[c] >= 1 {
        CountPositive(rows, Conference, c);
      }
    }
    t
  }

  /** Sum of the values of `m` over the listed keys. */
  function SumOver(m: map<string, nat>, ks: seq<string>): nat
    requires forall k :: k in ks ==> k in m
  {
    if |ks| == 0 then 0 else m[ks[0]] + SumOver(m, ks[1..])
  }

  /** Read in any order without repetition, the tally values add up to the
      number of rows. */
  lemma {:induction false} TallySumsToRowCount(rows: seq<Stadium>, ks: seq<string>)
    requires Distinct(ks)
    requires forall k :: k in ks <==> k in Tally(rows)
    ensures SumOver(Tally(rows), ks) == |rows|
  {
    SumOverIsSumCounts(rows, ks);
    SumCountsCover(rows, Conference, ks);
  }

  lemma {:induction false} SumOverIsSumCounts(rows: seq<Stadium>, ks: seq<string>)
    requires forall k :: k in ks ==> k in Tally(rows)
    ensures SumOver(Tally(rows), ks) == SumCounts(rows, Conference, ks)
  {
    if |ks| > 0 {
      SumOverIsSumCounts(rows, ks[1..]);
    }
  }

  /** One accumulation step: add the row's capacity to its conference, reading
      a missing key as 0. */
  function AddCapacity(totals: map<string, int>, s: Stadium): map<string, int>
  {
    totals[s.conference := (if s.conference in totals then totals[s.conference] else 0) + s.capacity]
  }

  function AccumulateFrom(totals: map<string, int>, rows: seq<Stadium>): map<string, int>
    decreases |rows|
  {
    if |rows| == 0 then totals else AccumulateFrom(AddCapacity(totals, rows[0]), rows[1..])
  }

  lemma {:induction false} AccumulateFromSums(totals: map<string, int>, rows: seq<Stadium>)
    ensures AccumulateFrom(totals, rows).Keys == totals.Keys + Keys(rows, Conference)
    ensures forall c :: c in AccumulateFrom(totals, rows) ==>
      AccumulateFrom(totals, rows)[c] == (if c in totals then totals[c] else 0) + CapacitySum(rows, Conference, c)
    decreases |rows|
  {
    if |rows| > 0 {
      KeysOfTail(rows, Conference);
      AccumulateFromSums(AddCapacity(totals, rows[0]), rows[1..]);
    }
  }

  /** Every key of the tally starts at 0, then each row's capacity is added to
      its conference. */
  function CapacityTotals(rows: seq<Stadium>, tally: map<string, nat>): (totals: map<string, int>)
    ensures totals.Keys == tally.Keys + Keys(rows, Conference)
    ensures forall c :: c in totals ==> totals[c] == CapacitySum(rows, Conference, c)
  {
    var zeroed := map c | c in tally :: 0;
    AccumulateFromSums(zeroed, rows);
    AccumulateFrom(zeroed, rows)
  }

  /** Divide every total by its tally. Looking a key up in the tally and
      dividing by its value are both checked here. */
  function Averages(totals: map<string, int>, tally: map<string, nat>): (means: map<string, real>)
    requires totals.Keys <= tally.Keys
    requires forall c :: c in totals ==> tally[c] > 0
    ensures means.Keys == totals.Keys
    ensures forall c :: c in means ==> means[c] * (tally[c] as real) == totals[c] as real
  {
    map c | c in totals :: Mean(totals[c], tally[c])
  }

  /** The whole per-conference pipeline: tally, totals, then the division, which
      never meets a missing key or a zero count. */
  function ConferenceMeans(rows: seq<Stadium>): (means: map<string, real>)
    ensures means.Keys == Keys(rows, Conference)
    ensures forall c :: c in means ==>
      Count(rows, Conference, c) >= 1 &&
      means[c] == Mean(CapacitySum(rows, Conference, c), Count(rows, Conference, c))
  {
    var tally := Tally(rows);
    var totals := CapacityTotals(rows, tally);
    assert totals.Keys == tally.Keys;
    var means := Averages(totals, tally);
    assert forall c :: c in means ==> tally[c] == Count(rows, Conference, c) && totals[c] == CapacitySum(rows, Conference, c);
    means
  }

  /** A conference with a single stadium has that stadium's capacity as its mean. */
  lemma SingleStadiumMean(rows: seq<Stadium>, i: int)
    requires 0 <= i < |rows|
    requires Count(rows, Conference, rows[i].conference) == 1
    ensures rows[i].conference in ConferenceMeans(rows)
    ensures ConferenceMeans(rows)[rows[i].conference] == rows[i].capacity as real
  {
    var c := rows[i].conference;
    SingleRowSum(rows, Conference, c, i);
    assert rows[i] in rows;
  }
}
