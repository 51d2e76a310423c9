/** The running totals shown under the record list: total planted area and
    total estimated profit. */
module Stats {
  import opened Records

  /** Sum of `f` over the entries, added front to back. */
  function Sum(rs: seq<Record>, f: Record -> real): real {
    if rs == [] then 0.0 else Sum(rs[..|rs| - 1], f) + f(rs[|rs| - 1])
  }

  function AreaOf(r: Record): real { r.area }
  function ProfitOf(r: Record): real { r.profit }

  function TotalArea(rs: seq<Record>): real { Sum(rs, AreaOf) }
  function TotalProfit(rs: seq<Record>): real { Sum(rs, ProfitOf) }

  /** The sum over a concatenation is the sum of the sums. */
  lemma {:induction false} SumAppend(a: seq<Record>, b: seq<Record>, f: Record -> real)
    ensures Sum(a + b, f) == Sum(a, f) + Sum(b, f)
    decreases |b|
  {
    if b != [] {
      assert (a + b)[..|a + b| - 1] == a + b[..|b| - 1];
      SumAppend(a, b[..|b| - 1], f);
    } else {
      assert a + b == a;
    }
  }

  /** With exact arithmetic a sum does not depend on the order of the
      entries: it is the same for any rearrangement of them, the re-sort in
      particular. (Floating-point sums can differ in the last digits.) */
  lemma {:induction false} SumPermutation(a: seq<Record>, b: seq<Record>, f: Record -> real)
    requires multiset(a) == multiset(b)
    ensures Sum(a, f) == Sum(b, f)
    decreases |a|
  {
    if a == [] {
      assert |b| == |multiset(b)| == 0;
    } else {
      var n := |a| - 1;
      var x := a[n];
      assert x in multiset(b) by { assert x in multiset(a); }
      var i :| 0 <= i < |b| && b[i] == x;
      var rest := b[..i] + b[i + 1..];
      assert b == b[..i] + [x] + b[i + 1..];
      assert a == a[..n] + [x];
      assert multiset(a[..n]) == multiset(a) - multiset{x};
      assert multiset(rest) == multiset(b) - multiset{x} by {
        assert multiset(b) == multiset(b[..i]) + multiset{x} + multiset(b[i + 1..]);
      }
      SumPermutation(a[..n], rest, f);
      SumAppend(b[..i] + [x], b[i + 1..], f);
      SumAppend(b[..i], [x], f);
      SumAppend(b[..i], b[i + 1..], f);
      assert Sum([x], f) == f(x) by { assert [x][..0] == []; }
    }
  }

  /** The summation loop of `displayStats`: both totals start at zero and
      each entry adds its area and its profit. */
  method DisplayTotals(records: seq<Record>) returns (totalArea: real, totalProfit: real)
    ensures totalArea == TotalArea(records)
    ensures totalProfit == TotalProfit(records)
  {
    totalArea := 0.0;
    totalProfit := 0.0;
    var i := 0;
    while i < |records|
      invariant 0 <= i <= |records|
      invariant totalArea == TotalArea(records[..i])
      invariant totalProfit == TotalProfit(records[..i])
    {
      assert records[..i + 1][..i] == records[..i];
      totalArea := totalArea + records[i].area;
      totalProfit := totalProfit + records[i].profit;
      i := i + 1;
    }
    assert records[..i] == records;
  }

  /** With no entries both totals are zero. */
  lemma EmptyTotals()
    ensures TotalArea([]) == 0.0 && TotalProfit([]) == 0.0
  {
  }

  /** With exact arithmetic, adding one entry in any position, then
      rearranging, raises each total by that entry's own amount. */
  lemma TotalsAfterAdding(rs: seq<Record>, r: Record, out: seq<Record>)
    requires multiset(out) == multiset(rs) + multiset{r}
    ensures TotalArea(out) == TotalArea(rs) + r.area
    ensures TotalProfit(out) == TotalProfit(rs) + r.profit
  {
    assert multiset(rs + [r]) == multiset(out);
    SumPermutation(out, rs + [r], AreaOf);
    SumPermutation(out, rs + [r], ProfitOf);
    assert (rs + [r])[..|rs|] == rs;
  }
}
