/**
 * The fare chart of main.js (renderFareCharts) put together: the display
 * groups, the same-named groups used by the transfer and colour searches,
 * the price function each grid applies to a pair of codes, the two grids
 * (regular and express) and their scale maxima.
 */
module MainChart {
  import opened Wrappers
  import opened MainFares
  import opened FareGrid

  /**
   * groupsMap / groupsForColors: the codes of the stations sharing a name
   * key, in input order, keeping only keys shared by more than one station.
   */
  function SameNameGroups(stations: seq<JsStation>): (r: seq<seq<string>>)
    ensures forall g :: g in r ==> |g| > 1
  {
    TransferGroups(GroupStations(stations, NameKey))
  }

  /**
   * The same-named groups are exactly the name-key groups with more than
   * one member: each one lists the codes of all stations with its key, and
   * every station whose key is shared has its group among them.
   */
  lemma SameNameGroupsExact(stations: seq<JsStation>)
    ensures forall g :: g in SameNameGroups(stations) ==> exists n :: 0 <= n < |stations| && g == CodesWithKey(stations, NameKey, NameKey(stations[n]))
    ensures forall n :: 0 <= n < |stations| && |CodesWithKey(stations, NameKey, NameKey(stations[n]))| > 1 ==>
              CodesWithKey(stations, NameKey, NameKey(stations[n])) in SameNameGroups(stations)
  {
    var gs := GroupStations(stations, NameKey);
    GroupStationsExact(stations, NameKey);
    TransferGroupsExact(gs);
    forall g | g in SameNameGroups(stations)
      ensures exists n :: 0 <= n < |stations| && g == CodesWithKey(stations, NameKey, NameKey(stations[n]))
    {
      var i :| 0 <= i < |gs| && gs[i].codes == g;
      var k := gs[i].key;
      assert FindGroup(gs, k) < |gs|;
      var c := CodesWithKey(stations, NameKey, k);
      var n := KeyedStation(stations, NameKey, k);
      assert g == CodesWithKey(stations, NameKey, NameKey(stations[n]));
    }
    forall n | 0 <= n < |stations| && |CodesWithKey(stations, NameKey, NameKey(stations[n]))| > 1
      ensures CodesWithKey(stations, NameKey, NameKey(stations[n])) in SameNameGroups(stations)
    {
      StationInItsGroup(stations, NameKey, n);
      var i := FindGroup(gs, NameKey(stations[n]));
      assert gs[i].codes == CodesWithKey(stations, NameKey, NameKey(stations[n]));
    }
  }

  /** A key with members belongs to some station. */
  lemma {:induction false} KeyedStation(ss: seq<JsStation>, keyOf: JsStation -> string, k: string) returns (n: nat)
    requires CodesWithKey(ss, keyOf, k) != []
    ensures n < |ss| && keyOf(ss[n]) == k
  {
    var init := ss[..|ss| - 1];
    if keyOf(ss[|ss| - 1]) == k {
      n := |ss| - 1;
    } else {
      n := KeyedStation(init, keyOf, k);
    }
  }

  /**
   * The price the grids apply to a pair of codes: bestFareBetweenCodes for
   * one tier. It is symmetric and never zero or negative.
   */
  function ChartFare(fares: seq<JsFare>, groups: seq<seq<string>>, isRegular: bool): (bf: (string, string) -> Option<int>)
    ensures forall a, b :: bf(a, b) == bf(b, a)
    ensures forall a, b :: bf(a, b).Some? ==> bf(a, b).value > 0
  {
    BestFareSymmetricAll(fares, groups, isRegular);
    (a, b) => BestFareBetweenCodes(fares, groups, a, b, isRegular)
  }

  lemma BestFareSymmetricAll(fares: seq<JsFare>, groups: seq<seq<string>>, isRegular: bool)
    ensures forall a, b :: BestFareBetweenCodes(fares, groups, a, b, isRegular) == BestFareBetweenCodes(fares, groups, b, a, isRegular)
  {
    forall a, b
      ensures BestFareBetweenCodes(fares, groups, a, b, isRegular) == BestFareBetweenCodes(fares, groups, b, a, isRegular)
    {
      BestFareSymmetric(fares, groups, a, b, isRegular);
    }
  }

  /** The route colours of a pair of codes, over the page's lines and same-named groups. */
  function ChartColors(lines: seq<JsLine>, groups: seq<seq<string>>): (colors: (string, string) -> seq<string>)
    ensures forall a, b :: |colors(a, b)| <= 2
  {
    (a, b) => ColorsForRoute(lines, groups, a, b)
  }

  /** What renderFareCharts draws: the group headers, both grids and their scale maxima. */
  datatype FareChart = FareChart(groups: seq<DisplayGroup>, regular: seq<seq<Cell>>, express: seq<seq<Cell>>, maxRegular: int, maxExpress: int)

  /**
   * renderFareCharts: groups the stations for display, then builds the
   * regular and the express grid and computes each grid's maximum.
   */
  method RenderFareCharts(stations: seq<JsStation>, fares: seq<JsFare>, lines: seq<JsLine>) returns (chart: FareChart)
    ensures chart.groups == DisplayGroups(stations)
    ensures chart.maxRegular == MaxFare(ChartFare(fares, SameNameGroups(stations), true), GroupCodes(chart.groups))
    ensures chart.maxExpress == MaxFare(ChartFare(fares, SameNameGroups(stations), false), GroupCodes(chart.groups))
    ensures |chart.regular| == |chart.groups| && |chart.express| == |chart.groups|
    ensures forall i :: 0 <= i < |chart.groups| ==>
              |chart.regular[i]| == |chart.groups| && chart.regular[i][i] == Dash
              && |chart.express[i]| == |chart.groups| && chart.express[i][i] == Dash
    ensures forall i, j :: 0 <= i < |chart.groups| && 0 <= j < |chart.groups| && i != j ==>
              chart.regular[i][j] == FareCell(CellMin(ChartFare(fares, SameNameGroups(stations), true), chart.groups[i].codes, chart.groups[j].codes),
                                              GroupColors(ChartColors(lines, SameNameGroups(stations)), chart.groups[i].codes, chart.groups[j].codes))
              && chart.express[i][j] == FareCell(CellMin(ChartFare(fares, SameNameGroups(stations), false), chart.groups[i].codes, chart.groups[j].codes),
                                                 GroupColors(ChartColors(lines, SameNameGroups(stations)), chart.groups[i].codes, chart.groups[j].codes))
  {
    var byCode := SortBy(stations, CodeOf);
    var keyed := GroupByKey(byCode, NameKey);
    var dg := SortBy(keyed, FirstCode);
    var raw := GroupByKey(stations, NameKey);
    var groups := TransferGroups(raw);
    var codes := GroupCodes(dg);
    var bfR := ChartFare(fares, groups, true);
    var bfE := ChartFare(fares, groups, false);
    var colors := ChartColors(lines, groups);
    var maxR := ComputeMax(bfR, codes);
    var maxE := ComputeMax(bfE, codes);
    var gridR := BuildGrid(bfR, colors, codes);
    var gridE := BuildGrid(bfE, colors, codes);
    chart := FareChart(dg, gridR, gridE, maxR, maxE);
  }

  /** The chart is symmetric: the cell for (A, B) shows the same fare as the cell for (B, A). */
  lemma ChartSymmetric(stations: seq<JsStation>, fares: seq<JsFare>, isRegular: bool, ca: seq<string>, cb: seq<string>)
    ensures CellMin(ChartFare(fares, SameNameGroups(stations), isRegular), ca, cb)
         == CellMin(ChartFare(fares, SameNameGroups(stations), isRegular), cb, ca)
  {
    CellSymmetric(ChartFare(fares, SameNameGroups(stations), isRegular), ca, cb);
  }

  /** Every fare the chart shows is positive, and none exceeds the grid's maximum. */
  lemma ChartCellsBounded(stations: seq<JsStation>, fares: seq<JsFare>, isRegular: bool, i: nat, j: nat)
    requires i < |DisplayGroups(stations)| && j < |DisplayGroups(stations)| && i != j
    ensures var bf := ChartFare(fares, SameNameGroups(stations), isRegular);
            var gs := GroupCodes(DisplayGroups(stations));
            CellMin(bf, gs[i], gs[j]).Some? ==> 0 < CellMin(bf, gs[i], gs[j]).value <= MaxFare(bf, gs)
  {
    CellWithinMax(ChartFare(fares, SameNameGroups(stations), isRegular), GroupCodes(DisplayGroups(stations)), i, j);
  }
}
