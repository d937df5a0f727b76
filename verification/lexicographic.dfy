/** Code-point lexicographic order on strings, the order in which a group-by
    lists its keys, and insertion into a strictly ascending key list. */
module Lexicographic {

  /** `a` sorts strictly before `b`: a proper prefix, or smaller at the first
      differing character. */
  predicate Below(a: string, b: string)
  {
    if |a| == 0 then |b| > 0
    else |b| > 0 && (a[0] < b[0] || (a[0] == b[0] && Below(a[1..], b[1..])))
  }

  lemma {:induction false} BelowIrreflexive(a: string)
    ensures !Below(a, a)
  {
    if |a| > 0 {
      BelowIrreflexive(a[1..]);
    }
  }

  lemma {:induction false} BelowTransitive(a: string, b: string, c: string)
    requires Below(a, b) && Below(b, c)
    ensures Below(a, c)
  {
    if |a| > 0 && a[0] == b[0] && b[0] == c[0] {
      BelowTransitive(a[1..], b[1..], c[1..]);
    }
  }

  lemma {:induction false} BelowTotal(a: string, b: string)
    requires a != b
    ensures Below(a, b) || Below(b, a)
  {
    if |a| > 0 && |b| > 0 && a[0] == b[0] {
      assert a == [a[0]] + a[1..] && b == [b[0]] + b[1..];
      BelowTotal(a[1..], b[1..]);
    }
  }

  /** No entry of `ks` occurs twice. */
  predicate Distinct(ks: seq<string>)
  {
    forall i, j :: 0 <= i < j < |ks| ==> ks[i] != ks[j]
  }

  predicate StrictlySorted(ks: seq<string>)
  {
    forall i, j :: 0 <= i < j < |ks| ==> Below(ks[i], ks[j])
  }

  lemma PrependSorted(k: string, ks: seq<string>)
    requires StrictlySorted(ks)
    requires forall x :: x in ks ==> Below(k, x)
    ensures StrictlySorted([k] + ks)
  {
  }

  /** Add `k` to a strictly ascending list, keeping it strictly ascending and
      leaving it unchanged when `k` is already present. */
  function Insert(ks: seq<string>, k: string): (r: seq<string>)
    requires StrictlySorted(ks)
    ensures StrictlySorted(r)
    ensures forall x :: x in r <==> x in ks || x == k
    ensures k in ks ==> r == ks
  {
    if |ks| == 0 then [k]
    else if k == ks[0] then ks
    else if Below(k, ks[0]) then
      assert forall x :: x in ks ==> Below(k, x) by {
        forall x | x in ks ensures Below(k, x) {
          if x != ks[0] {
            var j :| 0 <= j < |ks| && ks[j] == x;
            BelowTransitive(k, ks[0], x);
          }
        }
      }
      PrependSorted(k, ks);
      BelowIrreflexive(k);
      [k] + ks
    else
      BelowTotal(k, ks[0]);
      assert StrictlySorted(ks[1..]);
      var tail := Insert(ks[1..], k);
      assert forall x :: x in tail ==> Below(ks[0], x) by {
        forall x | x in tail ensures Below(ks[0], x) {
          if x != k {
            var j :| 0 <= j < |ks[1..]| && ks[1..][j] == x;
            assert ks[j + 1] == x;
          }
        }
      }
      PrependSorted(ks[0], tail);
      assert k in ks ==> k in ks[1..];
      [ks[0]] + tail
  }

  /** A strictly ascending list has no repeated entries. */
  lemma SortedIsDistinct(ks: seq<string>)
    requires StrictlySorted(ks)
    ensures Distinct(ks)
  {
    forall i, j | 0 <= i < j < |ks|
      ensures ks[i] != ks[j]
    {
      if ks[i] == ks[j] {
        BelowIrreflexive(ks[i]);
      }
    }
  }
}
