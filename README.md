# Austrian road fatalities: from upstream records to chart series

This project models, in Dafny, the data logic of a small web application that charts road
fatalities in Austria. The logic has two halves, joined by a JSON response.

- **The server route** (`app/api/traffic/route.ts`) receives the upstream JSON body. It takes
  the `verkehrstote` array when the body passes the guard
  `data && typeof data === 'object' && Array.isArray(data.verkehrstote)`, and an empty list
  otherwise. From each of its records it keeps three fields:
  - `Bundesland_ID` is decoded through a fixed nine-entry table into a state name; an
    unknown code passes through as it is;
  - `Berichtsjahr` (the year) and `Getötete` (the number killed) are read with
    `parseInt(…, 10)`, which yields NaN instead of failing on bad text.
- **The response** (`NextResponse.json(result)`, read back by the page with `res.json()`)
  carries the records as JSON. JSON has no NaN, so a year or count that failed to parse
  reaches the page as `null`.
- **The page** (`app/page.tsx`) works on those records.
  - The state filter and the year filter are exact-match conditions, and both must hold.
  - With a year selected the page draws a bar chart: one bar per state, in the order the
    states first occur, each the sum of that state's counts, coloured from a fixed table.
  - Without a year it draws a line chart: one line per state, one value per distinct year in
    ascending order. A year without records for a state counts as 0.
  - The same year derivation fills the year drop-down (`allYears`).

The files:

- `js_number.dfy` (module `JsNumber`): years and counts as the code sees them, an integer,
  NaN or `null`. Addition absorbs NaN and reads `null` as 0, `===` never holds for NaN, and
  `reduce` sums as a left fold. The JSON round trip turns NaN into `null`.
- `parse_int.dfy` (module `ParseInt`): `parseInt(s, 10)` as ECMAScript defines it, and the
  decimal rendering `String(n)`.
- `collections.dfy` (module `Collections`):
  - `Array.from(new Set(xs))` as a distinct-in-first-occurrence-order function;
  - the order-preserving subsequence relation that `filter` produces;
  - `sort((a, b) => a - b)` as a stable insertion sort.
- `route.dfy` (module `TrafficRoute`): the record types, the state table, the payload guard,
  the per-record mapping and the JSON response.
- `page.dfy` (module `HomePage`): the filter, the mode choice, the bar and line data, the
  colours and the year list.
- `chart_properties.dfy` (module `ChartProperties`): what the numbers mean.
  - The bars partition the filtered total.
  - Each line sums to its state's bar.
  - The year axis is strictly ascending and has no gaps.
  - A year picked from the list filters exactly that year.
  - No bar drawn from the route's records is NaN.
  - A worked example.

How the code behaves in the cases a reader might not expect:
- The code groups only by state (bars) and by state and year (lines). It has no month, sex,
  area or age-group decoding or grouping.
- Bar labels and lines come in first-occurrence order, not sorted by name.
- A count that failed to parse arrives at the page as `null`, and `sum + null` adds 0, so the
  bar and the lines simply leave it out. A year that failed to parse arrives as `null`:
  - it never passes a non-empty year filter, since `null !== parseInt(…)`;
  - `new Set` keeps it once, the comparator `a - b` sorts it as 0, and its line-chart
    column collects the records whose year is `null`, because `null === null`.
- The year filter compares with JavaScript's `!==`. A year filter that `parseInt` reads as
  NaN therefore keeps no record at all.
- The page functions are total over NaN as well, although the route's JSON response never
  delivers one. Given NaN, a count makes its bar NaN, and a NaN year shows up once in the
  year list (`new Set` identifies NaN with NaN, and so does Dafny's datatype equality) with
  a column that is 0 for every state, because `item.Jahr === NaN` never holds.

## Model

| member | source | states |
|---|---|---|
| `ParseInt.ParseIntOfNumeral` | app/api/traffic/route.ts:49-50 | Leading white space, an optional `+`/`-`, a non-empty run of digits and any tail not starting with a digit parse to the signed value of the digits; the tail is ignored |
| `ParseInt.ParseIntWithoutDigits` | app/api/traffic/route.ts:49-50 | When no digit follows the white space and the optional sign, `parseInt` gives NaN (and never fails) |
| `ParseInt.ParseInt10` | app/api/traffic/route.ts:49-50 | `parseInt(s, 10)` always yields a number, never `null`, and yields NaN for text without any decimal digit |
| `ParseInt.IntToString` | app/page.tsx:77 | `String(n)`: a minus sign exactly for negative n, then a non-empty run of decimal digits without a leading zero (a lone `0` for zero) |
| `ParseInt.ParseIntOfIntToString` | app/api/traffic/route.ts:49-50 | Round trip: `parseInt(String(n), 10)` is n for every integer n |
| `TrafficRoute.DecodeBundesland` | app/api/traffic/route.ts:48 | A code in the table becomes its state name, one of the nine; the result equals the code exactly when the code is not in the table, the empty string included |
| `TrafficRoute.MappingTable` | app/api/traffic/route.ts:23-33 | The table's codes are exactly `'1'`–`'9'`, decoding to Burgenland … Wien in order |
| `TrafficRoute.MappingIsOnto` | app/api/traffic/route.ts:23-33 | The table's names are exactly the nine state names |
| `TrafficRoute.MappingIsInjective` | app/api/traffic/route.ts:23-33 | The nine names are pairwise distinct: different codes decode to different states |
| `TrafficRoute.GuardAcceptsOnlyRecordArrays` | app/api/traffic/route.ts:43 | The guard `data && typeof data === 'object' && Array.isArray(data.verkehrstote)` holds exactly for an object whose `verkehrstote` member is an array |
| `TrafficRoute.NullFailsTheGuard` | app/api/traffic/route.ts:43 | `typeof null` is `'object'`, but `null` is falsy, so the first conjunct rejects it |
| `TrafficRoute.RawArray` | app/api/traffic/route.ts:42-45 | `rawArray` runs the three-step guard; it is the `verkehrstote` array for an object holding an array there, and empty for every other body (null, booleans, numbers, strings, arrays, objects without an array member) |
| `TrafficRoute.RouteWithoutRecordArray` | app/api/traffic/route.ts:42-51 | The route yields no records exactly when the guard fails or the accepted array is empty |
| `TrafficRoute.NormalizeRecord` | app/api/traffic/route.ts:47-51 | The record built from one upstream record: a known code becomes one of the nine names and an unknown code stays as it is; year and count are never `null`; a count without any digit is NaN |
| `TrafficRoute.Normalize` | app/api/traffic/route.ts:47-51 | Exactly one chart record per upstream record, in the same order, each built from its own record |
| `TrafficRoute.Route` | app/api/traffic/route.ts:42-51 | The route's output has one normalised record per record of the guarded array, in order |
| `TrafficRoute.Transmit` | app/api/traffic/route.ts:53 | What the page reads back from `NextResponse.json(result)`: the same records in the same order, with each NaN year or count replaced by `null`, so no NaN arrives |
| `TrafficRoute.TransmitOfRoute` | app/api/traffic/route.ts:53 | A parsed year or count reaches the page unchanged exactly when it is an integer, and arrives as `null` exactly when it was NaN |
| `JsNumber.JsonRoundTrip` | app/api/traffic/route.ts:53 | A number after JSON serialisation and parsing is never NaN, and it is unchanged exactly when it was not NaN |
| `JsNumber.Add` | app/page.tsx:88 | `sum + x` is never `null`, and it is NaN exactly when one side is NaN (`null` counts as 0) |
| `JsNumber.StrictEquals` | app/page.tsx:114 | `a === b` holds exactly when a is not NaN and b is the same value: `null` equals only `null`, and NaN equals nothing |
| `TrafficRoute.OtherFieldsIgnored` | app/api/traffic/route.ts:47-51 | Two upstream records that agree on `Bundesland_ID`, `Berichtsjahr` and `Getötete` give the same chart record, whatever their other eight fields |
| `TrafficRoute.NormalizeParsesFields` | app/api/traffic/route.ts:47-51 | A record whose year and count are non-empty runs of decimal digits gets exactly their values, and the decoded state |
| `TrafficRoute.NormalizeUnparsableCount` | app/api/traffic/route.ts:50 | A count that does not start with a digit, a sign or white space becomes NaN rather than an error |
| `HomePage.RegionColor` | app/page.tsx:34-48 | Each of the nine states gets its own colour from the table; any other label gets `#999999`, and only such labels do |
| `HomePage.Keep` | app/page.tsx:75-79 | The filter callback accepts a record exactly when the state filter is empty or names its state, and the year filter is empty or its year is the integer `parseInt` reads from the filter; a NaN or `null` year never passes a year filter |
| `HomePage.FilteredData` | app/page.tsx:75-79 | The result is an order-preserving subsequence of the records. A record is in it iff it is in the input and both filters accept it, and each record that passes occurs in it exactly as often as in the input while every other record does not occur. With both filters empty the result is the input |
| `HomePage.Regions` | app/page.tsx:84-85 | The distinct states of the records: no repeats, every state that occurs, and no other |
| `HomePage.Years` | app/page.tsx:64-66 | `allYears` and the line labels contain each year that occurs in the records exactly once, and nothing else |
| `HomePage.RegionTotal` | app/page.tsx:86-91 | A state's sum is never `null`; it is 0 when the state has no records, and NaN exactly when one of its records has a NaN count (a `null` count adds 0) |
| `HomePage.RegionYearTotal` | app/page.tsx:111-119 | A state-and-year sum is never `null`; it is 0 when no record matches (never a gap), and NaN exactly when a matching record has a NaN count |
| `HomePage.GetBarChartData` | app/page.tsx:83-103 | Bar labels are the distinct states of the filtered records; data and colours are aligned with them, entry i being label i's sum and colour; the dataset is titled with the year filter |
| `HomePage.GetLineChartData` | app/page.tsx:105-133 | The axis is the sorted distinct years; one dataset per distinct state, in order, each with one value per year (its sum for that state and year) and the state's colour |
| `HomePage.Render` | app/page.tsx:81 | A bar chart is drawn exactly when the year filter is non-empty, otherwise a line chart, both over the filtered records |
| `Collections.Distinct` | app/page.tsx:84 | `Array.from(new Set(xs))` holds each value of xs exactly once and nothing else |
| `Collections.DistinctInFirstOccurrenceOrder` | app/page.tsx:84 | The distinct values appear in the order of their first occurrence |
| `Collections.DistinctSnocSeen` | app/page.tsx:84 | Adding a value the Set already holds leaves `Array.from(new Set(…))` unchanged |
| `Collections.DistinctSnocNew` | app/page.tsx:84 | Adding a value the Set does not hold appends it at the end |
| `Collections.SortNumbers` | app/page.tsx:106-108 | Sorting returns a permutation of its input |
| `Collections.SortNumbersSameValues` | app/page.tsx:106-108 | Sorting neither adds nor drops a value |
| `Collections.SortNumbersNoDup` | app/page.tsx:106-108 | Sorting values without repeats gives values without repeats |
| `Collections.SortNumbersStrictlyAscending` | app/page.tsx:106-108 | Sorting distinct, NaN-free numbers gives a strictly ascending sequence |
| `Collections.SubseqNoLonger` | app/page.tsx:75-79 | A filtered sequence is never longer than its source |
| `ChartProperties.RegionTotalsPartition` | app/page.tsx:86-91 | Over any duplicate-free list of states covering all records, the per-state sums add up to the total count: grouping is a partition (NaN-poisoning included) |
| `ChartProperties.BarChartPartitionsTotal` | app/page.tsx:84-91 | The bars together sum to the total count of the filtered records |
| `ChartProperties.YearTotalsPartition` | app/page.tsx:110-119 | One state's per-year sums over a duplicate-free covering year list add up to that state's total, when none of its years is NaN (a `null` year has its own column) |
| `ChartProperties.LinesMatchBars` | app/page.tsx:109-128 | With no NaN year (`null` years allowed), the lines come in the bars' order and each line sums to its state's bar over the same records |
| `ChartProperties.YearsStrictlyAscending` | app/page.tsx:106-108 | When every year is an integer, `allYears` and the line axis are strictly ascending, hence without repeats |
| `ChartProperties.RegionsInFirstOccurrenceOrder` | app/page.tsx:109 | Bars and lines follow the order in which the states first occur in the records |
| `ChartProperties.LineChartHasNoGaps` | app/page.tsx:110-128 | Every line has one value per year; a state without records in a year, and every state in a NaN year's column, gets 0 |
| `ChartProperties.BarIsNaNIffRecordIsNaN` | app/page.tsx:86-91 | A bar is NaN exactly when one of its state's filtered records has a NaN count |
| `ChartProperties.EmptyDataGivesEmptyCharts` | app/page.tsx:83-133 | With no records the bar chart has no labels and no data, and the line chart has no years and no lines |
| `ChartProperties.FilterNoLonger` | app/page.tsx:75-79 | Filtering never yields more records than it was given |
| `ChartProperties.SelectedYearFiltersThatYear` | app/page.tsx:77 | A year filter holding the decimal rendering of a year keeps every record of that year that also passes the state filter, as often as it occurs, and no other record |
| `ChartProperties.UnparsableYearFilterKeepsNothing` | app/page.tsx:77 | A non-empty year filter that `parseInt` reads as NaN keeps no record |
| `ChartProperties.TransmittedBarsAreNumbers` | app/page.tsx:86-91 | Over any record list after the JSON response (`Transmit`), filtered either way, every bar is a number, never NaN: a count that failed to parse arrived as `null` and adds 0 |
| `ChartProperties.EveryStateHasItsOwnColor` | app/page.tsx:34-48 | The colour table covers exactly the nine state names the route produces; each decoded code gets a non-grey colour and every other label gets grey |
| `ChartProperties.LineChartExample` | app/page.tsx:105-133 | Worked case: Tirol in 2019 and 2020, Wien only in 2020, gives axis [2019, 2020], Tirol [1, 2] and Wien [0, 4] with their colours |

## Left out

- The HTTP work is not modelled: the `fetch` calls, `NextResponse.error`, try/catch and `console.error` (app/api/traffic/route.ts:35-41, 54-57, app/page.tsx:56-73). The model starts from the parsed body (`Body`) on the route side. `Transmit` stands for the JSON encoding of the response and its decoding on the page, and the page side starts from the record list. The page's own `Array.isArray(json) ? json : []` guard on the fetched list is part of that I/O: the route always sends an array.
- React and Chart.js are not modelled: `useState`/`useEffect`, the setters, the JSX and `<select>` options, component registration, and the `lineOptions`/`barOptions` constants. These are presentation only. The line datasets' fixed `borderWidth: 2` and `fill: false` are left out for the same reason.
- JavaScript floating point is not modelled. Counts and years are unbounded integers plus NaN and `null`. Precision loss above 2^53, `-0`, and `String(n)` switching to exponent notation at 1e21 are outside the model. A JSON number in the upstream body stands as an integer, since the guard only asks whether it is 0.
- `Years` with a NaN year: the comparator then returns NaN, and the order JavaScript produces is left to the engine. The model uses one fixed stable order, and the ordering lemmas are stated for integer years only. NaN cannot reach the page through the JSON response. A `null` year sorts as 0 under the comparator, and the model sorts it that way.
- YearsStrictlyAscending: stated only when every year is an integer. With NaN the engine-defined sort order makes no promise to state. A `null` year sorts as 0 and so is not strictly before or after a year 0.
- LinesMatchBars: stated only for NaN-free years (`null` years are included). As written, a record with a NaN year matches no year column, so its count is missing from every line; `ChartProperties.LineChartHasNoGaps` states that this column is 0.
- Both lookup tables are finite maps. Lookups through the plain object's prototype chain (a code such as `"toString"`) are not modelled.
- Upstream records are taken as the route's type cast declares them: every array element is a record whose eleven fields are strings. Missing fields (`undefined`) and non-object elements are not modelled. The other members of the upstream object are not represented, since the route reads only `verkehrstote`.
