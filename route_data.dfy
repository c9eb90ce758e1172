/**
 * The result of a route search (data/Route.java): the stations passed, the
 * line taken into each of them, the price, the number of transfers and the
 * station count kept beside the path. Lists are values here, so the copies
 * the getters return can never alias the route's own lists.
 */
module RouteData {

  /**
   * The station count the route keeps: the number of stations after the
   * start (path length - 1), or 0 for the empty path of a fresh route.
   */
  predicate CountMatches(stationPath: seq<string>, stationCount: int)
  {
    stationCount == |stationPath| - 1 || (stationPath == [] && stationCount == 0)
  }

  /**
   * The transfer points among the first n line entries: for each position
   * i < n whose line differs from the one before it, the station at i - 1,
   * when the station path reaches that far.
   */
  function TransferPointsUpTo(stationPath: seq<string>, linePath: seq<string>, n: nat): seq<string>
    requires n <= |linePath|
  {
    if n <= 1 then []
    else TransferPointsUpTo(stationPath, linePath, n - 1)
         + (if linePath[n - 1] != linePath[n - 2] && n - 2 < |stationPath| then [stationPath[n - 2]] else [])
  }

  function TransferPoints(stationPath: seq<string>, linePath: seq<string>): seq<string>
  {
    TransferPointsUpTo(stationPath, linePath, |linePath|)
  }

  /** The number of positions among the first n whose line differs from the previous one. */
  function ChangesUpTo(linePath: seq<string>, n: nat): nat
    requires n <= |linePath|
  {
    if n <= 1 then 0
    else ChangesUpTo(linePath, n - 1) + (if linePath[n - 1] != linePath[n - 2] then 1 else 0)
  }

  function LineChanges(linePath: seq<string>): nat
  {
    ChangesUpTo(linePath, |linePath|)
  }

  /**
   * Each transfer point is a station of the path; there is one per line
   * change whenever the station path covers the line path, and none when
   * the route stays on one line.
   */
  lemma {:induction false} TransferPointsSpec(stationPath: seq<string>, linePath: seq<string>, n: nat)
    requires n <= |linePath|
    ensures forall p :: p in TransferPointsUpTo(stationPath, linePath, n) ==> p in stationPath
    ensures |TransferPointsUpTo(stationPath, linePath, n)| <= ChangesUpTo(linePath, n)
    ensures n <= |stationPath| + 1 ==> |TransferPointsUpTo(stationPath, linePath, n)| == ChangesUpTo(linePath, n)
    ensures (forall i :: 0 <= i < n ==> linePath[i] == linePath[0]) ==> TransferPointsUpTo(stationPath, linePath, n) == []
  {
    if n > 1 {
      TransferPointsSpec(stationPath, linePath, n - 1);
    }
  }

  class Route {
    var stationPath: seq<string>
    var linePath: seq<string>
    var totalPrice: int
    var transferCount: int
    var stationCount: int
    var startStation: string
    var endStation: string

    ghost predicate Valid()
      reads this
    {
      CountMatches(stationPath, stationCount)
    }

    /** Route(start, end): empty paths, price 0, no transfers, count 0. */
    constructor (startStation: string, endStation: string)
      ensures this.startStation == startStation && this.endStation == endStation
      ensures stationPath == [] && linePath == [] && totalPrice == 0 && transferCount == 0 && stationCount == 0
      ensures Valid()
    {
      this.startStation := startStation;
      this.endStation := endStation;
      stationPath := [];
      linePath := [];
      totalPrice := 0;
      transferCount := 0;
      stationCount := 0;
    }

    /** Route(stationPath, linePath, totalPrice, transferCount, start, end): the count is the path length - 1. */
    constructor Of(stationPath: seq<string>, linePath: seq<string>, totalPrice: int, transferCount: int, startStation: string, endStation: string)
      ensures this.stationPath == stationPath && this.linePath == linePath
      ensures this.totalPrice == totalPrice && this.transferCount == transferCount
      ensures this.startStation == startStation && this.endStation == endStation
      ensures stationCount == |stationPath| - 1
      ensures Valid()
    {
      this.stationPath := stationPath;
      this.linePath := linePath;
      this.totalPrice := totalPrice;
      this.transferCount := transferCount;
      stationCount := |stationPath| - 1;
      this.startStation := startStation;
      this.endStation := endStation;
    }

    /** setStationPath: replaces the path and recounts. */
    method SetStationPath(path: seq<string>)
      modifies this
      ensures stationPath == path && stationCount == |path| - 1
      ensures linePath == old(linePath) && totalPrice == old(totalPrice) && transferCount == old(transferCount)
      ensures startStation == old(startStation) && endStation == old(endStation)
      ensures Valid()
    {
      stationPath := path;
      stationCount := |path| - 1;
    }

    method SetLinePath(path: seq<string>)
      modifies this
      ensures linePath == path
      ensures stationPath == old(stationPath) && stationCount == old(stationCount) && totalPrice == old(totalPrice) && transferCount == old(transferCount)
      ensures startStation == old(startStation) && endStation == old(endStation)
    {
      linePath := path;
    }

    method SetTotalPrice(price: int)
      modifies this
      ensures totalPrice == price
      ensures stationPath == old(stationPath) && linePath == old(linePath) && stationCount == old(stationCount) && transferCount == old(transferCount)
      ensures startStation == old(startStation) && endStation == old(endStation)
    {
      totalPrice := price;
    }

    method SetTransferCount(count: int)
      modifies this
      ensures transferCount == count
      ensures stationPath == old(stationPath) && linePath == old(linePath) && stationCount == old(stationCount) && totalPrice == old(totalPrice)
      ensures startStation == old(startStation) && endStation == old(endStation)
    {
      transferCount := count;
    }

    /** addStationToPath: appends the code; the count follows the new length. */
    method AddStationToPath(code: string)
      modifies this
      ensures stationPath == old(stationPath) + [code] && stationCount == |old(stationPath)|
      ensures linePath == old(linePath) && totalPrice == old(totalPrice) && transferCount == old(transferCount)
      ensures startStation == old(startStation) && endStation == old(endStation)
      ensures Valid()
    {
      stationPath := stationPath + [code];
      stationCount := |stationPath| - 1;
    }

    method AddLineToPath(lineId: string)
      modifies this
      ensures linePath == old(linePath) + [lineId]
      ensures stationPath == old(stationPath) && stationCount == old(stationCount) && totalPrice == old(totalPrice) && transferCount == old(transferCount)
      ensures startStation == old(startStation) && endStation == old(endStation)
    {
      linePath := linePath + [lineId];
    }

    method AddToTotalPrice(price: int)
      modifies this
      ensures totalPrice == old(totalPrice) + price
      ensures stationPath == old(stationPath) && linePath == old(linePath) && stationCount == old(stationCount) && transferCount == old(transferCount)
      ensures startStation == old(startStation) && endStation == old(endStation)
    {
      totalPrice := totalPrice + price;
    }

    method IncrementTransferCount()
      modifies this
      ensures transferCount == old(transferCount) + 1
      ensures stationPath == old(stationPath) && linePath == old(linePath) && stationCount == old(stationCount) && totalPrice == old(totalPrice)
      ensures startStation == old(startStation) && endStation == old(endStation)
    {
      transferCount := transferCount + 1;
    }

    /** isValid: a non-empty path from the start station to the end station. */
    predicate IsValid()
      reads this
    {
      stationPath != [] && stationPath[0] == startStation && stationPath[|stationPath| - 1] == endStation
    }

    /**
     * getTransferPoints: walks the line path remembering the current line
     * and records the station before each change of line.
     */
    method GetTransferPoints() returns (transfers: seq<string>)
      ensures transfers == TransferPoints(stationPath, linePath)
    {
      transfers := [];
      if |linePath| <= 1 {
        return;
      }
      var currentLine := linePath[0];
      var i := 1;
      while i < |linePath|
        invariant 1 <= i <= |linePath|
        invariant currentLine == linePath[i - 1]
        invariant transfers == TransferPointsUpTo(stationPath, linePath, i)
      {
        if linePath[i] != currentLine {
          if i - 1 < |stationPath| {
            transfers := transfers + [stationPath[i - 1]];
          }
          currentLine := linePath[i];
        }
        i := i + 1;
      }
    }
  }
}
