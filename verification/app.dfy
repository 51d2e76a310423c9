/** The form application's state and its submit handler: the six raw form
    fields are checked, a valid entry is saved and the list re-sorted, and
    the status message reports the outcome. */
module App {
  import opened Wrappers
  import opened Text
  import opened Dates
  import opened Records
  import opened Stats

  /** The six form fields, as typed. */
  datatype RawForm = RawForm(
    crop: string, area: string, date: string,
    seedPrice: string, fertPrice: string, salePrice: string)

  /** Host-library behaviour the handler depends on: `parseFloat`, whose
      `NaN` is `None`, and the date construction behind the date parser. */
  datatype Host = Host(parseFloat: string -> Option<real>, buildDate: DateBuilder)

  /** The saved entries, in display order, and the status message. */
  datatype State = State(records: seq<Record>, message: string)

  /** No entries and no message when the page loads. */
  const Initial: State := State([], "")

  const WarningMessage: string := "\U{26A0}\U{FE0F} Preencha todos os campos corretamente!"
  const SuccessMessage: string := "\U{2705} Registro salvo com sucesso!"

  /** The entry a form describes, if it is valid: the crop name is not blank
      after trimming, the area and the three prices parse as numbers, and
      the trimmed date parses. */
  function Validate(form: RawForm, host: Host): (r: Option<Record>)
    ensures r == None <==>
      || AllSpace(form.crop)
      || host.parseFloat(form.area) == None
      || ParseBrazilianDate(Trim(form.date), host.buildDate) == None
      || host.parseFloat(form.seedPrice) == None
      || host.parseFloat(form.fertPrice) == None
      || host.parseFloat(form.salePrice) == None
    ensures r.Some? ==>
      && r.value.crop == Trim(form.crop) && r.value.crop != []
      && Some(r.value.area) == host.parseFloat(form.area)
      && r.value.dateText == Trim(form.date)
      && Some(r.value.date) == ParseBrazilianDate(r.value.dateText, host.buildDate)
      && host.parseFloat(form.seedPrice).Some?
      && host.parseFloat(form.fertPrice).Some?
      && host.parseFloat(form.salePrice).Some?
      && r.value.profit == Profit(host.parseFloat(form.seedPrice).value,
           host.parseFloat(form.fertPrice).value,
           host.parseFloat(form.salePrice).value, r.value.area)
  {
    var crop := Trim(form.crop);
    var dateText := Trim(form.date);
    var area :- host.parseFloat(form.area);
    var date :- ParseBrazilianDate(dateText, host.buildDate);
    var seed :- host.parseFloat(form.seedPrice);
    var fert :- host.parseFloat(form.fertPrice);
    var sale :- host.parseFloat(form.salePrice);
    if crop == [] then None
    else Some(Record(crop, area, date, dateText, Profit(seed, fert, sale, area)))
  }

  /** The second half of `handleSubmit`, once the form has been checked:
      with no entry it sets the warning and changes nothing else; with an
      entry it adds it, leaves the list in date-descending order, and sets
      the success message. */
  function Commit(st: State, entry: Option<Record>): (r: State)
    ensures entry == None ==> r.records == st.records && r.message == WarningMessage
    ensures entry.Some? ==>
      && |r.records| == |st.records| + 1
      && multiset(r.records) == multiset(st.records) + multiset{entry.value}
      && SortedDesc(r.records)
      && r.message == SuccessMessage
  {
    match entry
    case None => st.(message := WarningMessage)
    case Some(rec) => State(SortByDate(st.records + [rec]), SuccessMessage)
  }

  /** `handleSubmit`. An invalid form sets the warning and changes nothing
      else. A valid one adds its entry, leaves the list in date-descending
      order, and sets the success message. */
  function Submit(st: State, form: RawForm, host: Host): (r: State)
    ensures Validate(form, host) == None ==>
      r.records == st.records && r.message == WarningMessage
    ensures Validate(form, host).Some? ==>
      && |r.records| == |st.records| + 1
      && multiset(r.records) == multiset(st.records) + multiset{Validate(form, host).value}
      && SortedDesc(r.records)
      && r.message == SuccessMessage
  {
    Commit(st, Validate(form, host))
  }

  /** A session: the forms submitted one after another. */
  function Run(st: State, forms: seq<RawForm>, host: Host): State
    decreases |forms|
  {
    if forms == [] then st else Run(Submit(st, forms[0], host), forms[1..], host)
  }

  /** The entries the valid forms of a session describe, in submit order. */
  function Saved(forms: seq<RawForm>, host: Host): seq<Record>
    decreases |forms|
  {
    if forms == [] then []
    else
      match Validate(forms[0], host)
      case None => Saved(forms[1..], host)
      case Some(rec) => [rec] + Saved(forms[1..], host)
  }

  /** Over a whole session the list holds exactly the entries it started
      with plus those of the valid forms, each once; it never loses an
      entry, and it stays in date-descending order. */
  lemma {:induction false} RunKeepsEntries(st: State, forms: seq<RawForm>, host: Host)
    requires SortedDesc(st.records)
    ensures var out := Run(st, forms, host).records;
      && multiset(out) == multiset(st.records) + multiset(Saved(forms, host))
      && |out| == |st.records| + |Saved(forms, host)|
      && SortedDesc(out)
    decreases |forms|
  {
    if forms != [] {
      var next := Submit(st, forms[0], host);
      RunKeepsEntries(next, forms[1..], host);
      var rest := Saved(forms[1..], host);
      match Validate(forms[0], host)
      case None =>
      case Some(rec) =>
        assert multiset([rec] + rest) == multiset{rec} + multiset(rest);
    }
  }

  /** Every list a session can reach from the empty start is in
      date-descending order. */
  lemma ReachableSorted(forms: seq<RawForm>, host: Host)
    ensures SortedDesc(Run(Initial, forms, host).records)
  {
    RunKeepsEntries(Initial, forms, host);
  }

  /** With exact arithmetic, saving an entry moves the totals by its area
      and profit, and a rejected submit leaves them as they were. */
  lemma CommitTotals(st: State, entry: Option<Record>)
    ensures var r := Commit(st, entry);
      match entry
      case None =>
        TotalArea(r.records) == TotalArea(st.records)
        && TotalProfit(r.records) == TotalProfit(st.records)
      case Some(rec) =>
        TotalArea(r.records) == TotalArea(st.records) + rec.area
        && TotalProfit(r.records) == TotalProfit(st.records) + rec.profit
  {
    match entry
    case None =>
    case Some(rec) =>
      TotalsAfterAdding(st.records, rec, Commit(st, entry).records);
  }

  /** The planting day of the worked example, 23 April 2025. */
  const PlantingDay: CalendarDate := Date(2025, 4, 23)

  /** The worked example: corn on 2 ha planted on 23/04/2025, seed 100,
      fertiliser 50, sale 300 per hectare, is valid and gives a profit of
      300. */
  lemma CornExampleValid(host: Host)
    requires host.parseFloat("2") == Some(2.0)
    requires host.parseFloat("100") == Some(100.0)
    requires host.parseFloat("50") == Some(50.0)
    requires host.parseFloat("300") == Some(300.0)
    requires host.buildDate("23", "04", "2025") == Some(PlantingDay)
    ensures Validate(RawForm("Milho", "2", "23/04/2025", "100", "50", "300"), host)
      == Some(Record("Milho", 2.0, PlantingDay, "23/04/2025", 300.0))
  {
    ExampleTextsTrimmed();
    ExampleDateParsed(host.buildDate);
  }

  /** The first valid submit of a session saves just its own entry. */
  lemma FirstCommit(rec: Record)
    ensures Commit(Initial, Some(rec)) == State([rec], SuccessMessage)
  {
    assert Initial.records + [rec] == [rec];
  }

  lemma ExampleTextsTrimmed()
    ensures Trim("Milho") == "Milho" && Trim("23/04/2025") == "23/04/2025"
  {
    CropNameTrimmed();
    assert "23/04/2025"[0] == '2' && "23/04/2025"[9] == '5';
    TrimUnpadded("23/04/2025");
  }

  lemma CropNameTrimmed()
    ensures Trim("Milho") == "Milho"
  {
    assert "Milho"[0] == 'M' && "Milho"[4] == 'o';
    TrimUnpadded("Milho");
  }

  /** Submitting the worked example on the empty start saves exactly that
      entry and reports success. */
  lemma CornExample(host: Host)
    requires host.parseFloat("2") == Some(2.0)
    requires host.parseFloat("100") == Some(100.0)
    requires host.parseFloat("50") == Some(50.0)
    requires host.parseFloat("300") == Some(300.0)
    requires host.buildDate("23", "04", "2025") == Some(PlantingDay)
    ensures Submit(Initial, RawForm("Milho", "2", "23/04/2025", "100", "50", "300"), host)
      == State([Record("Milho", 2.0, PlantingDay, "23/04/2025", 300.0)], SuccessMessage)
  {
    var rec := Record("Milho", 2.0, PlantingDay, "23/04/2025", 300.0);
    var form := RawForm("Milho", "2", "23/04/2025", "100", "50", "300");
    assert Validate(form, host) == Some(rec) by { CornExampleValid(host); }
    calc {
      Submit(Initial, form, host);
      Commit(Initial, Validate(form, host));
      Commit(Initial, Some(rec));
      { FirstCommit(rec); }
      State([rec], SuccessMessage);
    }
  }
}
