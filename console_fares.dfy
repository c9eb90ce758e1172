/**
 * The fare table and line rows of the operator console (console.js).
 * Its parseCode, segFare and sumLineFare are the same computations as the
 * web page's and are the MainFares members; what differs is the combining
 * rule (no transfer search), the route colours, the empty-table case and
 * the list edits of a line row.
 */
module ConsoleFares {
  import opened Wrappers
  import opened Text
  import opened MainFares
  import opened FareGrid

  // ---------------------------------------------------------------
  // Combining, without transfers
  // ---------------------------------------------------------------

  /**
   * bestFareBetweenCodes (console.js): the same-line sum if it is positive,
   * else the first record joining the two codes in either direction if its
   * price is positive, else no fare.
   */
  function ConsoleBestFare(fares: seq<JsFare>, a: string, b: string, isRegular: bool): (r: Option<int>)
    ensures r.Some? ==> r.value > 0
    ensures r.None? <==> (LineFare(fares, a, b, isRegular).None? || LineFare(fares, a, b, isRegular).value <= 0) && DirectFare(fares, a, b, isRegular) <= 0
  {
    var vLine := LineFare(fares, a, b, isRegular);
    var vSeg := DirectFare(fares, a, b, isRegular);
    if vLine.Some? && vLine.value > 0 then vLine
    else if vSeg > 0 then Some(vSeg)
    else None
  }

  /** The console's fare does not depend on the direction. */
  lemma ConsoleBestFareSymmetric(fares: seq<JsFare>, a: string, b: string, isRegular: bool)
    ensures ConsoleBestFare(fares, a, b, isRegular) == ConsoleBestFare(fares, b, a, isRegular)
  {
    LineFareSymmetric(fares, a, b, isRegular);
    EitherIndexSymmetric(fares, a, b);
  }

  /**
   * The console is the web page's rule with no same-named groups: without
   * groups the transfer search finds nothing, and the two rules coincide.
   */
  lemma ConsoleIsMainWithoutGroups(fares: seq<JsFare>, a: string, b: string, isRegular: bool)
    ensures ConsoleBestFare(fares, a, b, isRegular) == BestFareBetweenCodes(fares, [], a, b, isRegular)
  {
    var line := LinePrices(fares, isRegular);
    WithTransferNoGroups(line, a, b);
    assert line(a, b) == LineFare(fares, a, b, isRegular);
  }

  /** With no groups, sumWithTransfer is just the same-line value. */
  lemma WithTransferNoGroups(line: (string, string) -> Option<int>, a: string, b: string)
    ensures WithTransfer(line, [], a, b) == line(a, b)
  {
    assert AllCands(line, [], 0, a, b) == [];
  }

  /** The price function the console's table applies to a pair of codes. */
  function ConsoleFare(fares: seq<JsFare>, isRegular: bool): (bf: (string, string) -> Option<int>)
    ensures forall a, b :: bf(a, b) == bf(b, a)
  {
    ConsoleSymmetricAll(fares, isRegular);
    (a, b) => ConsoleBestFare(fares, a, b, isRegular)
  }

  lemma ConsoleSymmetricAll(fares: seq<JsFare>, isRegular: bool)
    ensures forall a, b :: ConsoleBestFare(fares, a, b, isRegular) == ConsoleBestFare(fares, b, a, isRegular)
  {
    forall a, b
      ensures ConsoleBestFare(fares, a, b, isRegular) == ConsoleBestFare(fares, b, a, isRegular)
    {
      ConsoleBestFareSymmetric(fares, a, b, isRegular);
    }
  }

  // ---------------------------------------------------------------
  // Route colours (console.js)
  // ---------------------------------------------------------------

  /** `x.color || '#93a2b7'` for the first line of a list, if any. */
  function FirstColor(ls: seq<JsLine>): (r: seq<string>)
    ensures |r| <= 1 && (r == [] <==> ls == [])
  {
    if ls == [] then [] else [ColorOf(ls[0])]
  }

  /**
   * colorsForRoute (console.js): the colour of the first line of a's lines
   * that b's lines share; otherwise the colour of a's first line, then that
   * of b's first line unless both first lines have the same id.
   */
  function ConsoleColorsForRoute(lines: seq<JsLine>, a: string, b: string): (r: seq<string>)
    ensures |r| <= 2
  {
    var la := LinesFor(lines, a);
    var lb := LinesFor(lines, b);
    var same := FindShared(la, lb);
    if same.Some? then [ColorOf(same.value)]
    else
      var colors := FirstColor(la) + (if lb != [] && (la == [] || lb[0].id != la[0].id) then FirstColor(lb) else []);
      colors[..Min(2, |colors|)]
  }

  /**
   * Without a shared line the id comparison never removes anything: the
   * result is the first colour of each side, so there is one colour
   * exactly when one of the two codes lies on no line.
   */
  lemma ConsoleColorsNoSharedLine(lines: seq<JsLine>, a: string, b: string)
    requires FindShared(LinesFor(lines, a), LinesFor(lines, b)).None?
    ensures ConsoleColorsForRoute(lines, a, b) == FirstColor(LinesFor(lines, a)) + FirstColor(LinesFor(lines, b))
  {
    var la := LinesFor(lines, a);
    var lb := LinesFor(lines, b);
    if la != [] && lb != [] {
      assert !SharesId(la[0], lb);
      assert lb[0].id != la[0].id;
    }
  }

  /** The colour function the console's table uses. */
  function ConsoleColors(lines: seq<JsLine>): (colors: (string, string) -> seq<string>)
    ensures forall a, b :: |colors(a, b)| <= 2
  {
    (a, b) => ConsoleColorsForRoute(lines, a, b)
  }

  // ---------------------------------------------------------------
  // The table
  // ---------------------------------------------------------------

  /** What renderFareTable leaves in its container. */
  datatype FareTable = Placeholder | Table(groups: seq<DisplayGroup>, cells: seq<seq<Cell>>, maxFare: int)

  /**
   * renderFareTable: an empty fare list shows the placeholder; otherwise
   * the display groups, the grid of cheapest member-pair fares with the
   * route colours, and the largest fare for colour scaling.
   */
  method RenderFareTable(isRegular: bool, fares: seq<JsFare>, stations: seq<JsStation>, lines: seq<JsLine>) returns (t: FareTable)
    ensures fares == [] <==> t == Placeholder
    ensures t.Table? ==>
      && t.groups == DisplayGroups(stations)
      && t.maxFare == MaxFare(ConsoleFare(fares, isRegular), GroupCodes(t.groups))
      && |t.cells| == |t.groups|
      && (forall i :: 0 <= i < |t.groups| ==> |t.cells[i]| == |t.groups| && t.cells[i][i] == Dash)
      && (forall i, j :: 0 <= i < |t.groups| && 0 <= j < |t.groups| && i != j ==>
            t.cells[i][j] == FareCell(CellMin(ConsoleFare(fares, isRegular), t.groups[i].codes, t.groups[j].codes),
                                      GroupColors(ConsoleColors(lines), t.groups[i].codes, t.groups[j].codes)))
  {
    if |fares| == 0 {
      return Placeholder;
    }
    var byCode := SortBy(stations, CodeOf);
    var keyed := GroupByKey(byCode, NameKey);
    var dg := SortBy(keyed, FirstCode);
    var codes := GroupCodes(dg);
    var bf := ConsoleFare(fares, isRegular);
    var maxFare := ComputeMax(bf, codes);
    var cells := BuildGrid(bf, ConsoleColors(lines), codes);
    t := Table(dg, cells, maxFare);
  }

  /** Every fare in the console's table is positive and at most the table's maximum, which is at least 1. */
  lemma ConsoleTableBounded(fares: seq<JsFare>, stations: seq<JsStation>, isRegular: bool, i: nat, j: nat)
    requires i < |DisplayGroups(stations)| && j < |DisplayGroups(stations)| && i != j
    ensures var bf := ConsoleFare(fares, isRegular);
            var gs := GroupCodes(DisplayGroups(stations));
            MaxFare(bf, gs) >= 1
            && (CellMin(bf, gs[i], gs[j]).Some? ==> 0 < CellMin(bf, gs[i], gs[j]).value <= MaxFare(bf, gs))
  {
    var bf := ConsoleFare(fares, isRegular);
    var gs := GroupCodes(DisplayGroups(stations));
    CellMinIsCheapest(bf, gs[i], gs[j]);
    MaxFareBounds(bf, gs);
    if CellMin(bf, gs[i], gs[j]).Some? {
      var a, b :| 0 <= a < |gs[i]| && 0 <= b < |gs[j]| && bf(gs[i][a], gs[j][b]) == CellMin(bf, gs[i], gs[j]);
      assert ConsoleBestFare(fares, gs[i][a], gs[j][b], isRegular) == CellMin(bf, gs[i], gs[j]);
    }
  }

  // ---------------------------------------------------------------
  // A line row's station list
  // ---------------------------------------------------------------

  /**
   * The code the row proposes for a new station: the first code's prefix
   * (or "01"), then the position after the last station, zero-padded.
   */
  function RowSuggestion(stations: seq<string>): string
  {
    SynthCode(RowPrefix(stations), |stations| + 1)
  }

  /** `(stations[0] || '01-01').split('-')[0] || '01'` */
  function RowPrefix(stations: seq<string>): (p: string)
    ensures p != "" && '-' !in p
    ensures stations != [] && ParseCode(stations[0]).prefix != "" ==> p == ParseCode(stations[0]).prefix
  {
    var src := if stations == [] || stations[0] == "" then "01-01" else stations[0];
    ParseCodePrefix(src);
    var p := ParseCode(src).prefix;
    if stations != [] && stations[0] == "" then
      ParseCodeNoDash("");
      if p == "" then "01" else p
    else if p == "" then "01" else p
  }

  /** The proposal is on the first station's line (or line 01), at the next position. */
  lemma RowSuggestionParses(stations: seq<string>)
    ensures ParseCode(RowSuggestion(stations)) == ParsedCode(RowPrefix(stations), |stations| + 1)
  {
    ParseSynthCode(RowPrefix(stations), |stations| + 1);
  }

  /** `(line.stations || []).filter(s => s !== code.trim())`: every listing of the code goes. */
  function RemoveAll(stations: seq<string>, code: string): (r: seq<string>)
    ensures code !in r
    ensures forall x :: x != code ==> (x in r <==> x in stations)
    ensures |r| <= |stations|
  {
    if stations == [] then []
    else (if stations[0] == code then [] else [stations[0]]) + RemoveAll(stations[1..], code)
  }

  /** Removing keeps every other code as often as it was listed, and changes the list exactly when the code was on it. */
  lemma {:induction false} RemoveAllKeepsOthers(stations: seq<string>, code: string)
    ensures multiset(RemoveAll(stations, code))[code] == 0
    ensures forall x :: x != code ==> multiset(RemoveAll(stations, code))[x] == multiset(stations)[x]
    ensures RemoveAll(stations, code) == stations <==> code !in stations
  {
    if stations != [] {
      RemoveAllKeepsOthers(stations[1..], code);
      assert stations == [stations[0]] + stations[1..];
      if stations[0] == code {
        assert |RemoveAll(stations, code)| < |stations|;
      }
    }
  }

  /** Removing works piece by piece, so the remaining codes keep their relative order. */
  lemma {:induction false} RemoveAllAppend(xs: seq<string>, ys: seq<string>, code: string)
    ensures RemoveAll(xs + ys, code) == RemoveAll(xs, code) + RemoveAll(ys, code)
  {
    if xs != [] {
      RemoveAllAppend(xs[1..], ys, code);
      assert (xs + ys)[1..] == xs[1..] + ys;
    } else {
      assert xs + ys == ys;
    }
  }

  /** Removing twice removes nothing more. */
  lemma {:induction false} RemoveAllIdempotent(stations: seq<string>, code: string)
    ensures RemoveAll(RemoveAll(stations, code), code) == RemoveAll(stations, code)
  {
    RemoveAllKeepsOthers(RemoveAll(stations, code), code);
  }

  /** A line as drawn by drawLineRow: its id and the station list the row edits. */
  class LineRow {
    const id: string
    var stations: seq<string>

    constructor(id: string, stations: seq<string>)
      ensures this.id == id && this.stations == stations
    {
      this.id := id;
      this.stations := stations;
    }

    /**
     * A click on the line: if the code, name and English name prompts all
     * return something non-empty, the trimmed code is pushed onto the end
     * of the list (duplicates and a code of blanks included); otherwise
     * nothing changes.
     */
    method AddStation(code: string, name: string, enName: string) returns (added: bool)
      modifies this
      ensures added <==> code != "" && name != "" && enName != ""
      ensures added ==> stations == old(stations) + [TrimJs(code)]
      ensures !added ==> stations == old(stations)
    {
      if code == "" || name == "" || enName == "" {
        return false;
      }
      stations := stations + [TrimJs(code)];
      added := true;
    }

    /** The remove button: with a non-empty answer, the row is redrawn without any listing of the trimmed code. */
    method RemoveStation(code: string)
      modifies this
      ensures code == "" ==> stations == old(stations)
      ensures code != "" ==> stations == RemoveAll(old(stations), TrimJs(code))
    {
      if code == "" {
        return;
      }
      stations := RemoveAll(stations, TrimJs(code));
    }
  }
}
