/** Planting records, their profit, and the date-descending order the record
    list is kept in. */
module Records {
  import opened Dates

  /** One saved planting entry. Prices are not kept: only the profit they
      gave when the entry was saved. `dateText` is the date as the user typed
      it (after trimming), kept for display and export. */
  datatype Record = Record(crop: string, area: real, date: CalendarDate, dateText: string, profit: real)

  /** Total profit of an entry: sale price per hectare minus the cost per
      hectare (seed plus fertiliser), times the area. No rounding, no
      clamping: losses are negative. */
  function Profit(seedPrice: real, fertPrice: real, salePrice: real, area: real): (r: real)
    ensures r == salePrice * area - seedPrice * area - fertPrice * area
    ensures area > 0.0 ==> (r > 0.0 <==> salePrice > seedPrice + fertPrice)
    ensures area > 0.0 ==> (r < 0.0 <==> salePrice < seedPrice + fertPrice)
    ensures area == 0.0 ==> r == 0.0
  {
    var costPerHectare := seedPrice + fertPrice;
    var profitPerHectare := salePrice - costPerHectare;
    profitPerHectare * area
  }

  /** Dates never increase from the front of the list to the back. */
  predicate SortedDesc(rs: seq<Record>) {
    forall i, j :: 0 <= i < j < |rs| ==> AtOrBefore(rs[j].date, rs[i].date)
  }

  /** Places `r` in front of the first entry whose date is not later than
      its own. */
  function Insert(r: Record, rs: seq<Record>): (out: seq<Record>)
    ensures multiset(out) == multiset(rs) + multiset{r}
    ensures |out| == |rs| + 1
    ensures out[0] == r || (|rs| > 0 && out[0] == rs[0])
    ensures SortedDesc(rs) ==> SortedDesc(out)
  {
    if rs == [] || AtOrBefore(rs[0].date, r.date) then
      if SortedDesc(rs) then PrependSorted(r, rs); [r] + rs else [r] + rs
    else
      var tail := Insert(r, rs[1..]);
      assert rs == [rs[0]] + rs[1..];
      if SortedDesc(rs) then ConsSorted(r, rs, tail); [rs[0]] + tail
      else [rs[0]] + tail
  }

  /** An entry no earlier than the head of a sorted list can go in front. */
  lemma PrependSorted(r: Record, rs: seq<Record>)
    requires SortedDesc(rs)
    requires rs == [] || AtOrBefore(rs[0].date, r.date)
    ensures SortedDesc([r] + rs)
  {
    if rs != [] {
      forall j | 0 < j < |rs| + 1
        ensures AtOrBefore(([r] + rs)[j].date, r.date)
      {
        AtOrBeforeTransitive(rs[j - 1].date, rs[0].date, r.date);
      }
    }
  }

  /** The head of a sorted list stays in front when an earlier-dated entry
      is inserted into the rest. */
  lemma ConsSorted(r: Record, rs: seq<Record>, tail: seq<Record>)
    requires SortedDesc(rs) && rs != []
    requires !AtOrBefore(rs[0].date, r.date)
    requires multiset(tail) == multiset(rs[1..]) + multiset{r}
    requires SortedDesc(tail)
    ensures SortedDesc([rs[0]] + tail)
  {
    AtOrBeforeTotal(rs[0].date, r.date);
    forall j | 0 <= j < |tail|
      ensures AtOrBefore(tail[j].date, rs[0].date)
    {
      assert tail[j] in multiset(tail);
      if tail[j] != r {
        assert tail[j] in multiset(rs[1..]);
        var k :| 0 <= k < |rs[1..]| && rs[1..][k] == tail[j];
        assert rs[k + 1] == tail[j];
      }
    }
    var out := [rs[0]] + tail;
    forall i, j | 0 <= i < j < |out|
      ensures AtOrBefore(out[j].date, out[i].date)
    {
      if i > 0 {
        assert out[i] == tail[i - 1] && out[j] == tail[j - 1];
      }
    }
  }

  /** `sortRecordsByDate`: the same entries, latest date first. */
  function SortByDate(rs: seq<Record>): (out: seq<Record>)
    ensures SortedDesc(out)
    ensures multiset(out) == multiset(rs)
    ensures |out| == |rs|
  {
    if rs == [] then []
    else
      assert rs == [rs[0]] + rs[1..];
      Insert(rs[0], SortByDate(rs[1..]))
  }

  /** A list already in date-descending order is left as it is. */
  lemma {:induction false} SortSortedIsIdentity(rs: seq<Record>)
    requires SortedDesc(rs)
    ensures SortByDate(rs) == rs
  {
    if rs != [] {
      SortedTail(rs);
      SortSortedIsIdentity(rs[1..]);
      assert rs == [rs[0]] + rs[1..];
    }
  }

  /** Sorting twice is sorting once. */
  lemma SortIdempotent(rs: seq<Record>)
    ensures SortByDate(SortByDate(rs)) == SortByDate(rs)
  {
    SortSortedIsIdentity(SortByDate(rs));
  }

  /** No two entries of the list share a date. */
  predicate DistinctDates(rs: seq<Record>) {
    forall i, j :: 0 <= i < j < |rs| ==> rs[i].date != rs[j].date
  }

  lemma SortedTail(rs: seq<Record>)
    requires SortedDesc(rs) && rs != []
    ensures SortedDesc(rs[1..])
  {
    forall i, j | 0 <= i < j < |rs| - 1
      ensures AtOrBefore(rs[1..][j].date, rs[1..][i].date)
    {
      assert rs[1..][j] == rs[j + 1] && rs[1..][i] == rs[i + 1];
    }
  }

  lemma DistinctTail(rs: seq<Record>)
    requires DistinctDates(rs) && rs != []
    ensures DistinctDates(rs[1..])
  {
    forall i, j | 0 <= i < j < |rs| - 1
      ensures rs[1..][i].date != rs[1..][j].date
    {
      assert rs[1..][j] == rs[j + 1] && rs[1..][i] == rs[i + 1];
    }
  }

  /** Two date-descending arrangements of the same distinct-date entries
      start with the same entry: the one with the latest date. */
  lemma SameHead(a: seq<Record>, b: seq<Record>)
    requires SortedDesc(a) && SortedDesc(b)
    requires multiset(a) == multiset(b)
    requires DistinctDates(a) && a != []
    ensures b != [] && a[0] == b[0]
  {
    assert a[0] in multiset(b);
    assert b[0] in multiset(a) by { assert |b| == |multiset(b)| == |multiset(a)| > 0; }
    var k :| 0 <= k < |b| && b[k] == a[0];
    var m :| 0 <= m < |a| && a[m] == b[0];
    assert AtOrBefore(b[k].date, b[0].date);
    assert AtOrBefore(a[m].date, a[0].date);
    AtOrBeforeTotal(a[0].date, b[0].date);
    assert a[m].date == a[0].date;
    assert m == 0;
  }

  /** When no two entries share a date, date-descending order is unique:
      any sort that orders by date descending, stable or not, gives the
      same list as `SortByDate`. */
  lemma {:induction false} SortedPermutationUnique(a: seq<Record>, b: seq<Record>)
    requires SortedDesc(a) && SortedDesc(b)
    requires multiset(a) == multiset(b)
    requires DistinctDates(a)
    ensures a == b
  {
    if a == [] {
      assert |b| == |multiset(b)| == 0;
    } else {
      SameHead(a, b);
      assert a == [a[0]] + a[1..] && b == [b[0]] + b[1..];
      assert multiset(a) == multiset{a[0]} + multiset(a[1..]);
      assert multiset(b) == multiset{a[0]} + multiset(b[1..]);
      assert multiset(a[1..]) == multiset(a) - multiset{a[0]};
      assert multiset(b[1..]) == multiset(b) - multiset{a[0]};
      SortedTail(a);
      SortedTail(b);
      DistinctTail(a);
      SortedPermutationUnique(a[1..], b[1..]);
    }
  }

  /** The distinct-date order produced by `SortByDate` for any input with
      distinct dates is the only one a date-descending sort can produce. */
  lemma SortAgreesWithAnySort(rs: seq<Record>, other: seq<Record>)
    requires SortedDesc(other) && multiset(other) == multiset(rs)
    requires DistinctDates(other)
    ensures SortByDate(rs) == other
  {
    SortedPermutationUnique(other, SortByDate(rs));
  }

  /** Entries planted on 10/01/2025, 05/03/2025 and 20/02/2025, saved in
      that order, are listed 05/03/2025, 20/02/2025, 10/01/2025. */
  lemma SortExample(jan: Record, mar: Record, feb: Record)
    requires jan.date == Date(2025, 1, 10)
    requires mar.date == Date(2025, 3, 5)
    requires feb.date == Date(2025, 2, 20)
    ensures SortByDate([jan, mar, feb]) == [mar, feb, jan]
  {
    var sorted := [mar, feb, jan];
    assert multiset(sorted) == multiset([jan, mar, feb]);
    SortAgreesWithAnySort([jan, mar, feb], sorted);
  }
}
