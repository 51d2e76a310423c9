# Planting-record pipeline of the "Agricultor Conectado" form

A functional Dafny model of the record logic of `sketch.js`, a p5.js page on
which a farmer types a crop name, the planted area, the planting date
(`dd/mm/yyyy`) and three per-hectare prices (seed, fertiliser, sale). The page
validates the six fields, computes the entry's total profit, appends the entry
to the list, re-sorts the list latest date first, shows running totals of area
and profit, and exports the list as CSV lines.

The model replaces the page's globals `records` and `message` by an immutable
`App.State`, and every handler by a pure function over it:

- `Text` — `trim`, `split('/')`, `includes` and `join`, on strings as
  sequences of Unicode scalar values.
- `Dates` — the `dd/mm/yyyy` shape check of `parseBrazilianDate` and the date
  order used by the sort (a `(year, month, day)` triple compared
  lexicographically).
- `Records` — the saved entry, its profit, and the date-descending sort.
- `Stats` — the area and profit totals of `displayStats`, with the summation
  loop as a method.
- `Export` — the header and the comma-joined lines of `exportData`.
- `Crops` — the first-match crop classification of `getCropEmoji`.
- `App` — field validation, `handleSubmit` as a state transition, and whole
  sessions of submits.

Host-library behaviour enters as parameters: `parseFloat` (its `NaN` is
`None`), the date construction behind `parseBrazilianDate` (`parseInt` of the
three pieces, the month shift, `new Date(...)` and the invalid-date check, as
one `DateBuilder` arrow returning `None` on rejection), `toLowerCase`, and
the number-to-text conversions used in the export (`Export.Formats`).

The form rejects a number only when `isNaN` holds (sketch.js:97-98), so
`Infinity` is accepted; the model's parse failure is exactly `parseFloat`'s
`NaN`.

Dates are calendar dates by type (`Dates.CalendarDate`: month 1–12, day
within that month's length, leap years of the Gregorian calendar): the host
date construction normalises out-of-range days and months before the list is
sorted, so what the model compares is the day the time value falls on, and
`Dates.OrderIsDayOrder` shows that the lexicographic order of such dates is
the order of their day numbers.

## Model

| member | source | states |
|---|---|---|
| `Text.Trim` | sketch.js:86-88 | The trimmed text is a contiguous piece of the input and everything cut off before and after it is ECMAScript white space; it is empty exactly when the input is all white space, and otherwise starts and ends with a non-space character. |
| `Text.TrimIdempotent` | sketch.js:86-88 | Trimming an already trimmed text changes nothing. |
| `Text.Split` | sketch.js:131 | `split('/')` yields one piece more than there are slashes, no piece holds a slash, and joining the pieces with slashes gives back the input. |
| `Text.SplitJoin` | sketch.js:131 | Splitting a slash-join of slash-free pieces gives back exactly those pieces (split inverts join). |
| `Dates.ParseBrazilianDate` | sketch.js:130-140 | The parser returns no date whenever the text does not hold exactly two slashes, i.e. does not split into exactly three pieces. |
| `Dates.ParsedHasShape` | sketch.js:131-139 | Whenever a date is returned, the text is `d/m/y` with three slash-free pieces and the date is what the host builds from `d`, `m`, `y`. |
| `Dates.ParseOfPieces` | sketch.js:131-136 | For slash-free `d`, `m`, `y`, parsing `d/m/y` hands exactly day `d`, month `m`, year `y` to the host date construction. |
| `Dates.ExampleDateParsed` | sketch.js:131-136 | `23/04/2025` reaches the host as day `23`, month `04`, year `2025`. |
| `Dates.IsoTextRefused` | sketch.js:131-139 | `2025-04-23` is refused whatever the host date construction does. |
| `Dates.OrderIsDayOrder` | sketch.js:144 | For calendar dates, one is at or before another exactly when its day number is not larger: the lexicographic order is the order of the dates' time values that the comparator subtracts. |
| `Dates.DayNumberInjective` | sketch.js:144 | Two calendar dates fall on the same day if and only if they are the same date, so the comparator returns zero exactly for equal dates. |
| `Dates.AtOrBeforeTotal` | sketch.js:144 | The date order the comparator induces is total and antisymmetric. |
| `Dates.AtOrBeforeTransitive` | sketch.js:144 | The date order is transitive. |
| `Records.Profit` | sketch.js:104-106 | Profit is sale·area − seed·area − fertiliser·area; for a positive area it is positive exactly when the sale price exceeds seed plus fertiliser and negative exactly when it falls short; zero area gives zero profit. |
| `Records.Insert` | sketch.js:143-145 | Inserting keeps every entry (multiset plus the new one), adds one, and keeps a date-descending list date-descending. |
| `Records.SortByDate` | sketch.js:143-145 | The sorted list is a permutation of the input with dates non-increasing from first to last. |
| `Records.SortSortedIsIdentity` | sketch.js:143-145 | A list already in date-descending order is returned unchanged. |
| `Records.SortIdempotent` | sketch.js:143-145 | Re-sorting a sorted list changes nothing. |
| `Records.SortedPermutationUnique` | sketch.js:143-145 | Two date-descending arrangements of the same entries with no shared dates are equal, so the order does not depend on the sort algorithm. |
| `Records.SortAgreesWithAnySort` | sketch.js:143-145 | With distinct dates, the modelled sort agrees with every date-descending arrangement, including whatever `Array.prototype.sort` produces. |
| `Records.SortExample` | sketch.js:143-145 | Entries dated 10/01/2025, 05/03/2025, 20/02/2025 end up ordered 05/03/2025, 20/02/2025, 10/01/2025. |
| `Stats.DisplayTotals` | sketch.js:168-176 | The loop's totals equal the sums of `area` and of profit over all entries. |
| `Stats.EmptyTotals` | sketch.js:169-170 | With no entries both totals are zero. |
| `Stats.SumAppend` | sketch.js:173-176 | The total over two lists put together is the sum of their totals. |
| `Stats.SumPermutation` | sketch.js:173-176 | With exact arithmetic the totals do not depend on the order of the entries, so the re-sort never changes them. |
| `Stats.TotalsAfterAdding` | sketch.js:168-176 | With exact arithmetic, adding one entry and rearranging raises the totals by exactly that entry's area and profit. |
| `Export.ExportLines` | sketch.js:185-189 | The export has exactly one line more than there are records: the literal header first, then the line of each entry in current list order. |
| `Export.Line` | sketch.js:188 | An entry's line is its four fields (crop, area as shown, date text, profit with two decimals) joined by commas. |
| `Export.LineColumns` | sketch.js:188 | Splitting an exported line on commas gives four columns if and only if no field holds a comma, and then the columns are the entry's fields. |
| `Export.HeaderColumns` | sketch.js:186 | The header reads back as `Cultura`, `Área (ha)`, `Data`, `Lucro (R$)`. |
| `Crops.Classify` | sketch.js:148-155 | A non-default category's keyword occurs in the lower-cased name, and no keyword tried earlier occurs. |
| `Crops.FirstMatchWins` | sketch.js:149-154 | A name holding a keyword is never put in a category tried after it. |
| `Crops.CornBeforeSoy` | sketch.js:150-151 | A name holding both `milho` and `soja` is classed as corn. |
| `Crops.OtherIffNoKeyword` | sketch.js:149-154 | The default category is chosen exactly when none of the four keywords occurs. |
| `Crops.Emoji` | sketch.js:150-154 | Each category is drawn with a single pictograph, one of the five icons of the source. |
| `Crops.CropEmoji` | sketch.js:148-155 | The icon is that of the first keyword, in the order milho, soja, trigo, feijão, that the lower-cased name holds (so a name holding `milho` always gets the corn icon), and the default icon is drawn exactly when none of the four keywords occurs. |
| `Crops.EmojiInjective` | sketch.js:150-154 | Different categories are drawn with different icons. |
| `App.Validate` | sketch.js:86-101 | A form is rejected exactly when the crop is blank, the area, the trimmed date or any price fails to parse; an accepted entry holds the trimmed crop, the parsed area, the trimmed date text and its date, and the profit of the parsed prices. |
| `App.Commit` | sketch.js:97-126 | With no entry the warning is set and the records are unchanged; with an entry the list gains exactly that entry (one more record, same multiset plus the entry), is date-descending, and the success message is set. |
| `App.Submit` | sketch.js:84-127 | A rejected form sets the warning and leaves the records unchanged; an accepted one adds its entry (one more record, same multiset plus the entry), leaves the list date-descending, and sets the success message. |
| `App.FirstCommit` | sketch.js:109-126 | The first valid submit of a session saves exactly its own entry and reports success. |
| `App.RunKeepsEntries` | sketch.js:109-117 | Over any sequence of submits the list holds the starting entries plus one per valid form, never loses one, and stays date-descending. |
| `App.ReachableSorted` | sketch.js:109-117 | Every list reachable from the empty start is date-descending. |
| `App.CommitTotals` | sketch.js:97-117 | With exact arithmetic, saving an entry raises the totals by the new entry's area and profit; a rejected one leaves them unchanged. |
| `App.CornExampleValid` | sketch.js:86-106 | Corn, 2 ha, 23/04/2025, prices 100/50/300 is a valid form whose entry has profit 300. |
| `App.CornExample` | sketch.js:84-126 | Submitting that form on the empty start gives exactly that one entry and the success message. |

## Left out

- Canvas and DOM set-up and drawing (`setup`, `draw`, `createForm`, `drawFormTitle`, `displayMessage`, the text layout of `displayRecords`), clearing the inputs after a save, and styling: presentation only.
- The file download by `saveStrings` and the file name: host I/O; the model stops at the list of lines.
- Floating point: numbers are `real`; `parseFloat`, `NaN`, `Infinity` and `toFixed(2)` rounding are host parameters, not reasoned about. With doubles the totals can depend on summation order in the last digits, which the exact-arithmetic totals lemmas do not capture.
- The host date construction (`parseInt` prefix parsing, the month shift, `new Date` roll-over of out-of-range days, two-digit years, the invalid-date check) is the `DateBuilder` parameter; only the three-piece shape check is modelled, and the builder is only required to return a calendar date. The host's limit of about 275,760 years either side of 1970 is not modelled.
- Unicode case folding of `toLowerCase` is a parameter; the classification is stated over whatever it returns.
- Export.ExportLines: the default number-to-text conversion of the area and `toFixed(2)` of the profit are parameters, so the contract speaks of their results, not of digits.
- Records.SortByDate: the order of entries with equal dates is not claimed. Both the host's `Array.prototype.sort`, which has been stable since ECMAScript 2019, and this insertion sort keep ties in their input order, but only the distinct-date order is proved to match the host sort.
- Strings are sequences of Unicode scalar values rather than UTF-16 code units; no text in the pipeline depends on the difference.
