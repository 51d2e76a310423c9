/** CSV export of the record list: a header line, then one line per entry
    in the list's current order. Fields are joined with commas and never
    quoted. */
module Export {
  import opened Text
  import opened Records

  /** The host's number rendering: `show` is the default conversion used in
      a template string, `fixed2` is `toFixed(2)`. */
  datatype Formats = Formats(show: real -> string, fixed2: real -> string)

  const Header: string := "Cultura,\U{C1}rea (ha),Data,Lucro (R$)"

  /** The four column texts of an entry: crop, area, date as typed, profit
      with two decimals. */
  function Fields(r: Record, fmt: Formats): seq<string> {
    [r.crop, fmt.show(r.area), r.dateText, fmt.fixed2(r.profit)]
  }

  /** One CSV line of an entry: its four fields joined by commas. */
  function Line(r: Record, fmt: Formats): (line: string)
    ensures line == Join(Fields(r, fmt), ',')
  {
    var f := Fields(r, fmt);
    assert Join(f[3..], ',') == f[3];
    assert Join(f[2..], ',') == f[2] + "," + f[3];
    assert Join(f[1..], ',') == f[1] + "," + f[2] + "," + f[3];
    r.crop + "," + fmt.show(r.area) + "," + r.dateText + "," + fmt.fixed2(r.profit)
  }

  /** `exportData`'s list of lines: the header, then the line of each entry
      in list order. */
  function ExportLines(records: seq<Record>, fmt: Formats): (lines: seq<string>)
    ensures |lines| == 1 + |records|
    ensures lines[0] == Header
    ensures forall i :: 0 <= i < |records| ==> lines[i + 1] == Line(records[i], fmt)
  {
    if records == [] then [Header]
    else ExportLines(records[..|records| - 1], fmt) + [Line(records[|records| - 1], fmt)]
  }

  /** Reading an exported line back by splitting on commas gives exactly
      four columns if and only if no field holds a comma, and then the
      columns are the entry's fields. A comma typed in a crop name or a date
      shifts the columns. */
  lemma LineColumns(r: Record, fmt: Formats)
    ensures |Split(Line(r, fmt), ',')| == 4 <==>
      forall k :: 0 <= k < 4 ==> ',' !in Fields(r, fmt)[k]
    ensures (forall k :: 0 <= k < 4 ==> ',' !in Fields(r, fmt)[k]) ==>
      Split(Line(r, fmt), ',') == Fields(r, fmt)
  {
    var f := Fields(r, fmt);
    CountJoin(f, ',');
    SumCountsZero(f, ',');
    if forall k :: 0 <= k < 4 ==> ',' !in f[k] {
      SplitJoin(f, ',');
    }
  }

  /** The header reads back as the four column titles. */
  lemma HeaderColumns()
    ensures Split(Header, ',') == ["Cultura", "\U{C1}rea (ha)", "Data", "Lucro (R$)"]
  {
    var titles := ["Cultura", "\U{C1}rea (ha)", "Data", "Lucro (R$)"];
    assert Join(titles[3..], ',') == titles[3];
    assert Join(titles[2..], ',') == titles[2] + "," + titles[3];
    assert Join(titles[1..], ',') == titles[1] + "," + titles[2] + "," + titles[3];
    assert Join(titles, ',') == Header;
    SplitJoin(titles, ',');
  }
}
