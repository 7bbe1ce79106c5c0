/**
 * The chart page's data logic: the state and year filters, the choice
 * between the bar chart (one year) and the line chart (all years), the
 * per-state sums behind the bars, the per-state-and-year sums behind the
 * lines, the fixed colour of each state and the sorted list of years.
 */
module HomePage {
  import opened JsNumber
  import opened ParseInt
  import opened Collections
  import opened TrafficRoute

  /** Fallback colour for a label that is not one of the nine states. */
  const DefaultColor := "#999999"

  /** The colour of each state's bars and lines. */
  const ColorMap: map<string, string> := map[
    "Burgenland" := "#f94144",
    "Kärnten" := "#f3722c",
    "Niederösterreich" := "#f8961e",
    "Oberösterreich" := "#f9844a",
    "Salzburg" := "#f9c74f",
    "Steiermark" := "#90be6d",
    "Tirol" := "#43aa8b",
    "Vorarlberg" := "#4d908e",
    "Wien" := "#577590"
  ]

  /** `colorMap[region] || '#999999'`. */
  function RegionColor(region: string): (r: string)
    ensures region in ColorMap ==> r == ColorMap[region]
    ensures r == DefaultColor <==> region !in ColorMap
  {
    if region in ColorMap && ColorMap[region] != "" then ColorMap[region] else DefaultColor
  }

  /** The bar chart: one bar per state, with its colour. */
  datatype BarChartData = BarChartData(
    labels: seq<string>,
    datasetLabel: string,
    data: seq<Num>,
    backgroundColor: seq<string>)

  /** One line of the line chart: a state and its count for every year. */
  datatype LineDataset = LineDataset(
    seriesLabel: string,
    data: seq<Num>,
    borderColor: string,
    backgroundColor: string)

  /** The line chart: the years along the axis and one line per state. */
  datatype LineChartData = LineChartData(labels: seq<Num>, datasets: seq<LineDataset>)

  /** What the page draws. */
  datatype Chart = Bar(bar: BarChartData) | Line(line: LineChartData)

  /**
   * The predicate passed to `rawData.filter`: an empty filter accepts
   * everything; otherwise the state must be the selected one, and the year
   * must be an integer equal to the parsed year filter, so a NaN or `null`
   * year never passes a year filter.
   */
  predicate Keep(bundeslandFilter: string, yearFilter: string, item: TrafficData)
    ensures Keep(bundeslandFilter, yearFilter, item)
            <==> && (bundeslandFilter == "" || item.bundesland == bundeslandFilter)
                 && (yearFilter == "" || (item.jahr.Val? && item.jahr == ParseInt10(yearFilter)))
  {
    && !(bundeslandFilter != "" && item.bundesland != bundeslandFilter)
    && !(yearFilter != "" && !StrictEquals(item.jahr, ParseInt10(yearFilter)))
  }

  /** `filteredData`: the records that pass both filters, in their original order. */
  function FilteredData(rawData: seq<TrafficData>, bundeslandFilter: string, yearFilter: string)
    : (r: seq<TrafficData>)
    ensures IsSubseq(r, rawData)
    ensures forall item :: item in r <==> item in rawData && Keep(bundeslandFilter, yearFilter, item)
    ensures forall item :: multiset(r)[item]
                           == if Keep(bundeslandFilter, yearFilter, item) then multiset(rawData)[item] else 0
    ensures bundeslandFilter == "" && yearFilter == "" ==> r == rawData
  {
    if rawData == [] then []
    else
      var n := |rawData| - 1;
      var rest := FilteredData(rawData[..n], bundeslandFilter, yearFilter);
      FilterOrderStep(rawData, bundeslandFilter, yearFilter, rest);
      FilterCountsStep(rawData, bundeslandFilter, yearFilter, rest);
      if Keep(bundeslandFilter, yearFilter, rawData[n]) then rest + [rawData[n]] else rest
  }

  /**
   * Filtering one more record keeps the result an order-preserving
   * subsequence, and with both filters empty the whole input.
   */
  lemma FilterOrderStep(rawData: seq<TrafficData>, bundeslandFilter: string, yearFilter: string, rest: seq<TrafficData>)
    requires rawData != []
    requires IsSubseq(rest, rawData[..|rawData| - 1])
    requires bundeslandFilter == "" && yearFilter == "" ==> rest == rawData[..|rawData| - 1]
    ensures var x := rawData[|rawData| - 1];
            var r := if Keep(bundeslandFilter, yearFilter, x) then rest + [x] else rest;
            && IsSubseq(r, rawData)
            && (bundeslandFilter == "" && yearFilter == "" ==> r == rawData)
  {
    var n := |rawData| - 1;
    var x := rawData[n];
    if Keep(bundeslandFilter, yearFilter, x) {
      var r := rest + [x];
      assert r[..|r| - 1] == rest;
      if bundeslandFilter == "" && yearFilter == "" {
        assert rawData == rawData[..n] + [x];
      }
    }
  }

  /** Filtering one more record: it is counted once more exactly when it passes. */
  lemma FilterCountsStep(rawData: seq<TrafficData>, bundeslandFilter: string, yearFilter: string, rest: seq<TrafficData>)
    requires rawData != []
    requires forall item :: multiset(rest)[item]
                            == if Keep(bundeslandFilter, yearFilter, item) then multiset(rawData[..|rawData| - 1])[item] else 0
    ensures var x := rawData[|rawData| - 1];
            var r := if Keep(bundeslandFilter, yearFilter, x) then rest + [x] else rest;
            && (forall item :: multiset(r)[item]
                               == if Keep(bundeslandFilter, yearFilter, item) then multiset(rawData)[item] else 0)
            && (forall item :: item in r <==> item in rawData && Keep(bundeslandFilter, yearFilter, item))
  {
    var n := |rawData| - 1;
    var x := rawData[n];
    var r := if Keep(bundeslandFilter, yearFilter, x) then rest + [x] else rest;
    assert rawData == rawData[..n] + [x];
    assert multiset(rawData) == multiset(rawData[..n]) + multiset{x};
    assert multiset(rest + [x]) == multiset(rest) + multiset{x};
    forall item ensures item in r <==> item in rawData && Keep(bundeslandFilter, yearFilter, item) {
      assert item in r <==> item in multiset(r);
      assert item in rawData <==> item in multiset(rawData);
    }
  }

  /** `data.map(d => d.Bundesland)`. */
  function Names(data: seq<TrafficData>): (r: seq<string>)
    ensures |r| == |data| && forall k :: 0 <= k < |data| ==> r[k] == data[k].bundesland
  {
    seq(|data|, k requires 0 <= k < |data| => data[k].bundesland)
  }

  /** `Array.from(new Set(data.map(d => d.Bundesland)))`: each state that has a record, once. */
  function Regions(data: seq<TrafficData>): (r: seq<string>)
    ensures NoDup(r)
    ensures forall region :: region in r <==> exists k :: 0 <= k < |data| && data[k].bundesland == region
  {
    Distinct(Names(data))
  }

  /** `data.map(d => d.Jahr)`. */
  function YearValues(data: seq<TrafficData>): (r: seq<Num>)
    ensures |r| == |data| && forall k :: 0 <= k < |data| ==> r[k] == data[k].jahr
  {
    seq(|data|, k requires 0 <= k < |data| => data[k].jahr)
  }

  /**
   * `Array.from(new Set(data.map(d => d.Jahr))).sort((a, b) => a - b)`: each
   * year that has a record, once; both `allYears` and the line chart's labels.
   */
  function Years(data: seq<TrafficData>): (r: seq<Num>)
    ensures NoDup(r)
    ensures forall year :: year in r <==> exists k :: 0 <= k < |data| && data[k].jahr == year
  {
    var d := Distinct(YearValues(data));
    SortNumbersSameValues(d);
    SortNumbersNoDup(d);
    SortNumbers(d)
  }

  /** The total count of all records, summed left to right from 0. */
  function Total(data: seq<TrafficData>): (r: Num)
    ensures !r.Null?
    ensures r.NaN? <==> exists k :: 0 <= k < |data| && data[k].getotete.NaN?
  {
    if data == [] then Val(0)
    else Add(Total(data[..|data| - 1]), data[|data| - 1].getotete)
  }

  /** The bar chart's reduce: the sum of the counts of the records of one state. */
  function RegionTotal(data: seq<TrafficData>, region: string): (r: Num)
    ensures !r.Null?
    ensures (forall k :: 0 <= k < |data| ==> data[k].bundesland != region) ==> r == Val(0)
    ensures r.NaN? <==> exists k :: 0 <= k < |data| && data[k].bundesland == region && data[k].getotete.NaN?
  {
    if data == [] then Val(0)
    else
      var n := |data| - 1;
      var sum := RegionTotal(data[..n], region);
      if data[n].bundesland == region then Add(sum, data[n].getotete) else sum
  }

  /** The line chart's reduce: the sum of the counts of the records of one state in one year. */
  function RegionYearTotal(data: seq<TrafficData>, region: string, year: Num): (r: Num)
    ensures !r.Null?
    ensures (forall k :: 0 <= k < |data| ==> !(data[k].bundesland == region && StrictEquals(data[k].jahr, year)))
            ==> r == Val(0)
    ensures r.NaN? <==> exists k :: 0 <= k < |data| && data[k].bundesland == region
                                    && StrictEquals(data[k].jahr, year) && data[k].getotete.NaN?
  {
    if data == [] then Val(0)
    else
      var n := |data| - 1;
      var sum := RegionYearTotal(data[..n], region, year);
      if data[n].bundesland == region && StrictEquals(data[n].jahr, year) then Add(sum, data[n].getotete)
      else sum
  }

  /** The per-state sums for a list of state labels. */
  function RegionTotals(data: seq<TrafficData>, labels: seq<string>): (r: seq<Num>)
    ensures |r| == |labels|
    ensures forall i :: 0 <= i < |labels| ==> r[i] == RegionTotal(data, labels[i])
  {
    seq(|labels|, i requires 0 <= i < |labels| => RegionTotal(data, labels[i]))
  }

  /** One state's sums for a list of years. */
  function YearTotals(data: seq<TrafficData>, region: string, years: seq<Num>): (r: seq<Num>)
    ensures |r| == |years|
    ensures forall j :: 0 <= j < |years| ==> r[j] == RegionYearTotal(data, region, years[j])
  {
    seq(|years|, j requires 0 <= j < |years| => RegionYearTotal(data, region, years[j]))
  }

  /** `getBarChartData()` over the filtered records. */
  function GetBarChartData(filteredData: seq<TrafficData>, yearFilter: string): (r: BarChartData)
    ensures NoDup(r.labels)
    ensures forall region :: region in r.labels <==> exists k :: 0 <= k < |filteredData| && filteredData[k].bundesland == region
    ensures |r.data| == |r.labels| && |r.backgroundColor| == |r.labels|
    ensures forall i :: 0 <= i < |r.labels| ==> r.data[i] == RegionTotal(filteredData, r.labels[i])
    ensures forall i :: 0 <= i < |r.labels| ==> r.backgroundColor[i] == RegionColor(r.labels[i])
    ensures r.datasetLabel == "Verkehrstote im Jahr " + yearFilter
  {
    var regions := Regions(filteredData);
    BarChartData(
      regions,
      "Verkehrstote im Jahr " + yearFilter,
      RegionTotals(filteredData, regions),
      seq(|regions|, i requires 0 <= i < |regions| => RegionColor(regions[i])))
  }

  /** `getLineChartData()` over the filtered records. */
  function GetLineChartData(filteredData: seq<TrafficData>): (r: LineChartData)
    ensures r.labels == Years(filteredData)
    ensures |r.datasets| == |Regions(filteredData)|
    ensures forall i :: 0 <= i < |r.datasets| ==>
              && r.datasets[i].seriesLabel == Regions(filteredData)[i]
              && r.datasets[i].data == YearTotals(filteredData, r.datasets[i].seriesLabel, r.labels)
              && r.datasets[i].borderColor == RegionColor(r.datasets[i].seriesLabel)
              && r.datasets[i].backgroundColor == RegionColor(r.datasets[i].seriesLabel)
  {
    var years := Years(filteredData);
    var regions := Regions(filteredData);
    LineChartData(
      years,
      seq(|regions|, i requires 0 <= i < |regions| =>
        LineDataset(regions[i], YearTotals(filteredData, regions[i], years),
                    RegionColor(regions[i]), RegionColor(regions[i]))))
  }

  /**
   * The page's chart for the records it fetched and the two filter values:
   * a bar chart exactly when a year is selected (`isBarChart = Boolean(yearFilter)`),
   * otherwise a line chart, either way over the filtered records.
   */
  function Render(rawData: seq<TrafficData>, bundeslandFilter: string, yearFilter: string): (r: Chart)
    ensures r.Bar? <==> yearFilter != ""
    ensures r.Bar? ==> r.bar == GetBarChartData(FilteredData(rawData, bundeslandFilter, yearFilter), yearFilter)
    ensures r.Line? ==> r.line == GetLineChartData(FilteredData(rawData, bundeslandFilter, yearFilter))
  {
    var filteredData := FilteredData(rawData, bundeslandFilter, yearFilter);
    var isBarChart := yearFilter != "";
    if isBarChart then Bar(GetBarChartData(filteredData, yearFilter)) else Line(GetLineChartData(filteredData))
  }
}
