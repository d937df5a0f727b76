/** Stadium rows and the reference definitions every aggregate is measured
    against: per-key counts, per-key capacity sums and the mean. */
module Records {
  import opened Lexicographic

  /** One row of the stadium table, restricted to the columns the
      aggregation reads. */
  datatype Stadium = Stadium(conference: string, state: string, capacity: int, built: int)

  /** The two columns the script groups by. */
  datatype Field = Conference | State

  function KeyOf(s: Stadium, f: Field): string
  {
    match f
    case Conference => s.conference
    case State => s.state
  }

  /** The distinct values of column `f`. */
  function Keys(rows: seq<Stadium>, f: Field): set<string>
  {
    set s | s in rows :: KeyOf(s, f)
  }

  /** Number of rows whose column `f` equals `k`. */
  function Count(rows: seq<Stadium>, f: Field, k: string): nat
  {
    if |rows| == 0 then 0
    else (if KeyOf(rows[0], f) == k then 1 else 0) + Count(rows[1..], f, k)
  }

  /** Sum of `capacity` over the rows whose column `f` equals `k`. */
  function CapacitySum(rows: seq<Stadium>, f: Field, k: string): int
  {
    if |rows| == 0 then 0
    else (if KeyOf(rows[0], f) == k then rows[0].capacity else 0) + CapacitySum(rows[1..], f, k)
  }

  /** Number of rows whose column `f` lies in `ks`. */
  function CountIn(rows: seq<Stadium>, f: Field, ks: set<string>): nat
  {
    if |rows| == 0 then 0
    else (if KeyOf(rows[0], f) in ks then 1 else 0) + CountIn(rows[1..], f, ks)
  }

  /** Sum of the per-key counts over a list of keys. */
  function SumCounts(rows: seq<Stadium>, f: Field, ks: seq<string>): nat
  {
    if |ks| == 0 then 0 else Count(rows, f, ks[0]) + SumCounts(rows, f, ks[1..])
  }

  /** Arithmetic mean of a total over `n` items; the caller must rule out `n == 0`. */
  function Mean(total: int, n: nat): (m: real)
    requires n > 0
    ensures m * (n as real) == total as real
  {
    total as real / n as real
  }

  /** Rows in ascending capacity order, as the table is after its initial sort. */
  predicate SortedByCapacity(rows: seq<Stadium>)
  {
    forall i, j :: 0 <= i < j < |rows| ==> rows[i].capacity <= rows[j].capacity
  }

  lemma KeysOfTail(rows: seq<Stadium>, f: Field)
    requires |rows| > 0
    ensures Keys(rows, f) == {KeyOf(rows[0], f)} + Keys(rows[1..], f)
  {
  }

  /** A key occurs in the column exactly when at least one row carries it. */
  lemma {:induction false} CountPositive(rows: seq<Stadium>, f: Field, k: string)
    ensures Count(rows, f, k) > 0 <==> k in Keys(rows, f)
  {
    if |rows| > 0 {
      KeysOfTail(rows, f);
      CountPositive(rows[1..], f, k);
    }
  }

  /** No matching rows means nothing to add up. */
  lemma {:induction false} NoRowsNoCapacity(rows: seq<Stadium>, f: Field, k: string)
    requires Count(rows, f, k) == 0
    ensures CapacitySum(rows, f, k) == 0
  {
    if |rows| > 0 {
      NoRowsNoCapacity(rows[1..], f, k);
    }
  }

  /** When exactly one row carries key `k`, its capacity is the whole sum. */
  lemma {:induction false} SingleRowSum(rows: seq<Stadium>, f: Field, k: string, i: int)
    requires 0 <= i < |rows| && KeyOf(rows[i], f) == k
    requires Count(rows, f, k) == 1
    ensures CapacitySum(rows, f, k) == rows[i].capacity
  {
    if i == 0 {
      NoRowsNoCapacity(rows[1..], f, k);
    } else {
      assert rows[i] == rows[1..][i - 1];
      if KeyOf(rows[0], f) == k {
        assert rows[i] in rows[1..];
        CountPositive(rows[1..], f, k);
        assert false;
      }
      SingleRowSum(rows[1..], f, k, i - 1);
    }
  }

  /** Counting rows in `ks + {k}` splits into those in `ks` and those equal to `k`. */
  lemma {:induction false} CountInAdd(rows: seq<Stadium>, f: Field, ks: set<string>, k: string)
    requires k !in ks
    ensures CountIn(rows, f, ks + {k}) == CountIn(rows, f, ks) + Count(rows, f, k)
  {
    if |rows| > 0 {
      CountInAdd(rows[1..], f, ks, k);
    }
  }

  /** A key set covering the whole column counts every row. */
  lemma {:induction false} CountInCover(rows: seq<Stadium>, f: Field, ks: set<string>)
    requires Keys(rows, f) <= ks
    ensures CountIn(rows, f, ks) == |rows|
  {
    if |rows| > 0 {
      KeysOfTail(rows, f);
      CountInCover(rows[1..], f, ks);
    }
  }

  /** Per-key counts over a duplicate-free key list add up to the rows in those keys. */
  lemma {:induction false} SumCountsIsCountIn(rows: seq<Stadium>, f: Field, ks: seq<string>)
    requires Distinct(ks)
    ensures SumCounts(rows, f, ks) == CountIn(rows, f, set k | k in ks)
  {
    if |ks| == 0 {
      assert (set k | k in ks) == {};
      CountInEmpty(rows, f);
    } else {
      var rest := set k | k in ks[1..];
      assert (set k | k in ks) == rest + {ks[0]};
      SumCountsIsCountIn(rows, f, ks[1..]);
      CountInAdd(rows, f, rest, ks[0]);
    }
  }

  lemma {:induction false} CountInEmpty(rows: seq<Stadium>, f: Field)
    ensures CountIn(rows, f, {}) == 0
  {
    if |rows| > 0 {
      CountInEmpty(rows[1..], f);
    }
  }

  /** Group sizes over a duplicate-free enumeration of a column's values add
      up to the number of rows. */
  lemma SumCountsCover(rows: seq<Stadium>, f: Field, ks: seq<string>)
    requires Distinct(ks)
    requires forall k :: k in ks <==> k in Keys(rows, f)
    ensures SumCounts(rows, f, ks) == |rows|
  {
    SumCountsIsCountIn(rows, f, ks);
    CountInCover(rows, f, set k | k in ks);
  }
}
