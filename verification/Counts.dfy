/** The rule shared by the three exemption forms: which calls a list of exact counts covers. */
module Counts {

  /** The largest declared count, never below 0. */
  function Largest(counts: seq<int>): (m: int)
    ensures 0 <= m
    ensures forall c | c in counts :: c <= m
    ensures m == 0 || m in counts
  {
    if counts == [] then 0
    else
      var m := Largest(counts[..|counts| - 1]);
      assert counts == counts[..|counts| - 1] + [counts[|counts| - 1]];
      if counts[|counts| - 1] > m then counts[|counts| - 1] else m
  }

  method MaxCount(counts: seq<int>) returns (m: int)
    ensures m == Largest(counts)
  {
    m := 0;
    for i := 0 to |counts|
      invariant m == Largest(counts[..i])
    {
      assert counts[..i + 1][..i] == counts[..i];
      if counts[i] > m {
        m := counts[i];
      }
    }
    assert counts[..|counts|] == counts;
  }

  method ContainsCount(counts: seq<int>, n: int) returns (found: bool)
    ensures found <==> n in counts
  {
    for i := 0 to |counts|
      invariant n !in counts[..i]
    {
      if counts[i] == n {
        return true;
      }
    }
    return false;
  }

  /** Whether the `k`-th in-transaction call is covered by these exact counts. */
  predicate Covers(counts: seq<int>, k: int) {
    counts == [] || k <= Largest(counts)
  }

  /** Whether a finished total breaks a counted declaration without having overrun it. */
  predicate FallsShort(counts: seq<int>, total: int) {
    total <= Largest(counts) && total !in counts
  }

  /** The promise of exact counts, for one declaration and `total` calls numbered 1..total: some call is
      declined exactly when the total grew past the maximum, the total falls short exactly when it shrank
      below it or into a gap, and nothing is reported exactly when the total is one of those declared. */
  lemma GrowthAndShrinkageSurface(counts: seq<int>, total: int)
    requires counts != [] && 0 < total
    ensures (exists k :: 1 <= k <= total && !Covers(counts, k)) <==> Largest(counts) < total
    ensures (forall k | 1 <= k <= total :: Covers(counts, k)) && !FallsShort(counts, total) <==> total in counts
  {
    assert Covers(counts, total) <==> total <= Largest(counts);
  }
}
