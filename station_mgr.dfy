// StationManager: the adapter over the network registry. Name lookups,
// removal, the name set, coordinates, addStationWithCode and the code/name
// accessors are the same code as StationManagerCompat's and live in
// StationCompat; this module holds what differs: random station codes,
// the distance guard for equal names, the coordinate check and
// addStationToLine's code numbering.

module StationMgr {
  import opened Wrappers
  import opened Text
  import opened StationData
  import opened LineData
  import opened Network
  import opened RouteGraph
  import opened RandomId
  import opened StationCompat

  /**
   * addStation(name, x, y, z): a random 16-character code not yet used by
   * any station, then the registry's addStation. generateUniqueId can
   * throw (None): then nothing is registered.
   */
  method AddStation(net: Registry, rng: Rng, name: string, x: int, y: int, z: int) returns (code: Option<string>)
    requires net.Valid()
    modifies net, rng
    ensures net.Valid()
    ensures code == UniqueFrom(rng.draws, old(rng.pos), old(net.stations.Keys), 0)
    ensures code.Some? ==> code.value !in old(net.stations) && IsValidId(code)
    ensures code.Some? && InWorld(x, y, z) ==>
              code.value in net.stations && net.stations == old(net.stations)[code.value := net.stations[code.value]]
              && fresh(net.stations[code.value]) && net.stations[code.value].name == name
    ensures code.None? || !InWorld(x, y, z) ==> net.stations == old(net.stations)
    ensures net.lines == old(net.lines) && net.fares == old(net.fares)
  {
    UniqueFromSpec(rng.draws, rng.pos, net.stations.Keys, 0);
    code := GenerateUniqueId(rng, net.stations.Keys);
    if code.None? {
      return;
    }
    var station := new Station(code.value, name);
    station.SetCoordinates(x, y, z);
    var _ := net.AddStation(station);
  }

  /** calculateDistance: 0 for two equal names, otherwise the compatibility layer's distance. */
  function NamedDistance(net: Registry, order: seq<string>, sqrt: int -> real, a: string, b: string): (d: real)
    requires Enumerates(order, net.stations)
    reads net, net.stations.Values
    ensures a == b ==> d == 0.0
    ensures CodeByName(net.stations, order, a).None? || CodeByName(net.stations, order, b).None? ==> d == 0.0
    ensures d <= MaxDistance
  {
    if a == b then 0.0 else Distance(net.stations, order, sqrt, a, b)
  }

  /** calculateDistance. */
  method CalculateDistance(net: Registry, order: seq<string>, sqrt: int -> real, a: string, b: string) returns (d: real)
    requires net.Valid() && Enumerates(order, net.stations)
    ensures d == NamedDistance(net, order, sqrt, a, b)
  {
    if a == b {
      return 0.0;
    }
    d := StationCompat.CalculateDistance(net, order, sqrt, a, b);
  }

  /** isValidCoordinate: a scratch station moved to the point, then Station's own check. */
  method IsValidCoordinate(x: int, y: int, z: int) returns (ok: bool)
    ensures ok <==> InWorld(x, y, z)
  {
    var dummy := new Station("dummy", "dummy");
    dummy.SetCoordinates(x, y, z);
    ok := dummy.IsValidCoordinate();
  }

  /** The number after prefix in a code, when the rest parses as a Java int. */
  function SuffixNumber(code: string, prefix: string): Option<int>
  {
    if StartsWith(code, prefix) then JavaParseInt(code[|prefix|..]) else None
  }

  /**
   * The largest number following prefix among the codes, or 0: what the
   * auto-numbering loop of addStationToLine computes.
   */
  function MaxSuffix(codes: seq<string>, prefix: string): (m: int)
    ensures 0 <= m <= IntMax
    ensures forall i :: 0 <= i < |codes| && SuffixNumber(codes[i], prefix).Some? ==> SuffixNumber(codes[i], prefix).value <= m
    ensures m == 0 || exists i :: 0 <= i < |codes| && SuffixNumber(codes[i], prefix) == Some(m)
  {
    if codes == [] then 0
    else
      var m := MaxSuffix(codes[..|codes| - 1], prefix);
      var n := SuffixNumber(codes[|codes| - 1], prefix);
      var r := if n.Some? && n.value > m then n.value else m;
      assert forall i :: 0 <= i < |codes| - 1 ==> codes[..|codes| - 1][i] == codes[i];
      r
  }

  /** addStationToLine's scan for the largest existing number on the line. */
  method LargestNumber(codes: seq<string>, prefix: string) returns (m: int)
    ensures m == MaxSuffix(codes, prefix)
  {
    m := 0;
    for i := 0 to |codes|
      invariant m == MaxSuffix(codes[..i], prefix)
    {
      var n := SuffixNumber(codes[i], prefix);
      if n.Some? && n.value > m {
        m := n.value;
      }
      assert codes[..i + 1][..i] == codes[..i];
    }
    assert codes[..|codes|] == codes;
  }

  /** Java's int increment: MAX_VALUE + 1 wraps to MIN_VALUE. */
  function Increment(n: int): int
    requires IntMin <= n <= IntMax
  {
    if n == IntMax then IntMin else n + 1
  }

  /** The station number addStationToLine uses: the given one if positive, else one past the line's largest. */
  function NumberFor(codes: seq<string>, lineId: string, stationNumber: int): int
  {
    if stationNumber > 0 then stationNumber else Increment(MaxSuffix(codes, lineId + "-"))
  }

  /** The code addStationToLine tries: lineId, '-' and the number formatted with %02d. */
  function CodeFor(codes: seq<string>, lineId: string, stationNumber: int): string
  {
    lineId + "-" + JsPad2(NumberFor(codes, lineId, stationNumber))
  }

  /**
   * An automatically numbered code is new to the line: its number is larger
   * than every number already following lineId + "-" (unless the largest is
   * MAX_VALUE and the increment wraps).
   */
  lemma AutoNumberAboveExisting(codes: seq<string>, lineId: string, stationNumber: int, i: int)
    requires stationNumber <= 0 && MaxSuffix(codes, lineId + "-") < IntMax
    requires 0 <= i < |codes| && SuffixNumber(codes[i], lineId + "-").Some?
    ensures SuffixNumber(codes[i], lineId + "-").value < NumberFor(codes, lineId, stationNumber)
  {
  }

  /** addStationToLine's choice of number: the given one if positive, else the line's largest plus one. */
  method NumberOnLine(codes: seq<string>, lineId: string, stationNumber: int) returns (number: int)
    ensures number == NumberFor(codes, lineId, stationNumber)
  {
    number := stationNumber;
    if number <= 0 {
      var maxNumber := LargestNumber(codes, lineId + "-");
      number := Increment(maxNumber);
    }
  }

  /**
   * addStationToLine: fails for a missing line; builds the code from the
   * given or next free number; fails when that code is already a station
   * or the registry refuses the station; otherwise registers the station
   * and appends the code to the line, which is removed and added again.
   */
  method AddStationToLine(net: Registry, chineseName: string, englishName: Option<string>, lineId: string,
                          stationNumber: int, x: int, y: int, z: int) returns (ok: bool)
    requires net.Valid()
    modifies net, net.lines.Values
    ensures net.Valid()
    ensures lineId !in old(net.lines) ==> !ok
    ensures ok <==> lineId in old(net.lines)
                    && CodeFor(old(net.lines[lineId].stationCodes), lineId, stationNumber) !in old(net.stations)
                    && InWorld(x, y, z)
    ensures !ok ==> net.stations == old(net.stations) && net.lines == old(net.lines)
                    && forall l :: l in old(net.lines).Values ==> l.stationCodes == old(l.stationCodes)
    ensures ok ==> var line, code := old(net.lines[lineId]), CodeFor(old(net.lines[lineId].stationCodes), lineId, stationNumber);
              && code in net.stations && net.stations == old(net.stations)[code := net.stations[code]]
              && fresh(net.stations[code]) && net.stations[code].name == chineseName
              && net.stations[code].enName == (if englishName.Some? then englishName.value else "")
              && net.stations[code].stationNumber == NumberFor(old(line.stationCodes), lineId, stationNumber)
              && line.stationCodes == old(line.stationCodes) + [code]
              && net.lines == (if lineId == "" then old(net.lines) - {lineId} else old(net.lines))
              && forall l :: l in old(net.lines).Values && l != line ==> l.stationCodes == old(l.stationCodes)
    ensures net.fares == old(net.fares)
  {
    var found := net.GetLine(lineId);
    if found.None? {
      return false;
    }
    var line := found.value;
    var number := NumberOnLine(line.stationCodes, lineId, stationNumber);
    var code := lineId + "-" + JsPad2(number);
    if net.GetStation(code).Some? {
      return false;
    }
    var station := new Station.Numbered(code, chineseName, if englishName.Some? then englishName.value else "",
                                        x, y, z, number);
    var added := net.AddStation(station);
    if !added {
      return false;
    }
    line.SetStationCodes(line.stationCodes + [code]);
    var _ := net.RemoveLine(lineId);
    var _ := net.AddLine(line);
    ok := true;
  }
}
