// StationManagerCompat: the name-based station API kept for older callers,
// answered from the network registry. Stations are looked up by name in
// the registry's iteration order, which is a parameter (a sequence of the
// registered codes); Math.sqrt is a parameter too.

module StationCompat {
  import opened Wrappers
  import opened Text
  import opened StationData
  import opened Network
  import opened RouteGraph
  import opened LineData

  /** MAX_DISTANCE: distances are capped at one million blocks. */
  const MaxDistance: real := 1000000.0

  /** The position of the first x in xs, if any. */
  function FirstIndex(xs: seq<string>, x: string): (r: Option<nat>)
    ensures r.Some? ==> r.value < |xs| && xs[r.value] == x && x !in xs[..r.value]
    ensures r.None? <==> x !in xs
  {
    if xs == [] then None
    else if xs[0] == x then Some(0)
    else match FirstIndex(xs[1..], x)
      case None => None
      case Some(i) =>
        assert xs[..i + 1] == [xs[0]] + xs[1..][..i];
        Some(i + 1)
  }

  /** The names of the stations in the given order of codes. */
  function NamesAt(stations: map<string, Station>, order: seq<string>): (r: seq<string>)
    requires forall i :: 0 <= i < |order| ==> order[i] in stations
    reads stations.Values
    ensures |r| == |order| && forall i :: 0 <= i < |order| ==> r[i] == stations[order[i]].name
  {
    if order == [] then [] else [stations[order[0]].name] + NamesAt(stations, order[1..])
  }

  /**
   * findStationCodeByName's answer: the code of the first station, in
   * iteration order, whose name is exactly name; None (null) if there is none.
   */
  function CodeByName(stations: map<string, Station>, order: seq<string>, name: string): (r: Option<string>)
    requires Enumerates(order, stations)
    reads stations.Values
    ensures r.Some? ==> r.value in stations && stations[r.value].name == name
    ensures r.None? <==> forall k :: k in stations ==> stations[k].name != name
  {
    var names := NamesAt(stations, order);
    match FirstIndex(names, name)
    case None =>
      assert forall k :: k in stations ==> k in order;
      None
    case Some(i) => Some(order[i])
  }

  /** A station named name, with no earlier one in the order, is the one CodeByName picks. */
  lemma FirstNamed(stations: map<string, Station>, order: seq<string>, name: string, i: nat)
    requires Enumerates(order, stations) && i < |order|
    requires stations[order[i]].name == name
    requires forall j :: 0 <= j < i ==> stations[order[j]].name != name
    ensures CodeByName(stations, order, name) == Some(order[i])
  {
    var names := NamesAt(stations, order);
    FirstIndexAt(names, name, i);
  }

  /** x sits at i and nowhere before it, so FirstIndex finds it there. */
  lemma FirstIndexAt(xs: seq<string>, x: string, i: nat)
    requires i < |xs| && xs[i] == x
    requires forall j :: 0 <= j < i ==> xs[j] != x
    ensures FirstIndex(xs, x) == Some(i)
  {
    assert x in xs;
  }

  /** When no station in the order is named name, CodeByName finds nothing. */
  lemma NoneNamed(stations: map<string, Station>, order: seq<string>, name: string)
    requires Enumerates(order, stations)
    requires forall j :: 0 <= j < |order| ==> stations[order[j]].name != name
    ensures CodeByName(stations, order, name) == None
  {
    forall k | k in stations
      ensures stations[k].name != name
    {
      var j :| 0 <= j < |order| && order[j] == k;
    }
  }

  /** findStationCodeByName: scans the stations in iteration order, stopping at the first with that name. */
  method FindStationCodeByName(net: Registry, order: seq<string>, name: string) returns (r: Option<string>)
    requires net.Valid() && Enumerates(order, net.stations)
    ensures r == CodeByName(net.stations, order, name)
    ensures r.Some? ==> net.stations[r.value].code == r.value
  {
    for i := 0 to |order|
      invariant forall j :: 0 <= j < i ==> net.stations[order[j]].name != name
    {
      if net.stations[order[i]].name == name {
        FirstNamed(net.stations, order, name, i);
        return Some(net.stations[order[i]].code);
      }
    }
    NoneNamed(net.stations, order, name);
    r := None;
  }

  /**
   * calculateDistance between two named stations: 0 when either name is
   * unknown; otherwise the Euclidean distance of their coordinates, capped
   * at MAX_DISTANCE.
   */
  function Distance(stations: map<string, Station>, order: seq<string>, sqrt: int -> real, a: string, b: string): (d: real)
    requires Enumerates(order, stations)
    reads stations.Values
    ensures CodeByName(stations, order, a).None? || CodeByName(stations, order, b).None? ==> d == 0.0
    ensures d <= MaxDistance
  {
    var ca, cb := CodeByName(stations, order, a), CodeByName(stations, order, b);
    if ca.Some? && cb.Some? then Span(Offset(stations[ca.value], stations[cb.value]), sqrt) else 0.0
  }

  /** The coordinate differences of two stations, widened to long. */
  function Offset(s1: Station, s2: Station): (int, int, int)
    reads s1, s2
  {
    (s1.x - s2.x, s1.y - s2.y, s1.z - s2.z)
  }

  /** The squared length of an offset: dx*dx + dy*dy + dz*dz. */
  function Norm2(o: (int, int, int)): int
  {
    o.0 * o.0 + o.1 * o.1 + o.2 * o.2
  }

  /** The Euclidean length of an offset, capped at MAX_DISTANCE. */
  function Span(o: (int, int, int), sqrt: int -> real): (d: real)
    ensures d <= MaxDistance
  {
    var e := sqrt(Norm2(o));
    if e <= MaxDistance then e else MaxDistance
  }

  /** Swapping the two stations leaves the squared length unchanged. */
  lemma Norm2Swap(s1: Station, s2: Station)
    ensures Norm2(Offset(s1, s2)) == Norm2(Offset(s2, s1))
  {
    var o, p := Offset(s1, s2), Offset(s2, s1);
    assert p.0 == -o.0 && p.1 == -o.1 && p.2 == -o.2;
    assert p.0 * p.0 == o.0 * o.0 && p.1 * p.1 == o.1 * o.1 && p.2 * p.2 == o.2 * o.2;
  }

  /** calculateDistance: looks both names up, then measures. */
  method CalculateDistance(net: Registry, order: seq<string>, sqrt: int -> real, a: string, b: string) returns (d: real)
    requires net.Valid() && Enumerates(order, net.stations)
    ensures d == Distance(net.stations, order, sqrt, a, b)
  {
    var c1 := FindStationCodeByName(net, order, a);
    var c2 := FindStationCodeByName(net, order, b);
    if c1.None? || c2.None? {
      return 0.0;
    }
    d := Span(Offset(net.stations[c1.value], net.stations[c2.value]), sqrt);
  }

  /** The distance between two names is the same measured from either end. */
  lemma DistanceSymmetric(net: Registry, order: seq<string>, sqrt: int -> real, a: string, b: string)
    requires Enumerates(order, net.stations)
    ensures Distance(net.stations, order, sqrt, a, b) == Distance(net.stations, order, sqrt, b, a)
  {
    var ca, cb := CodeByName(net.stations, order, a), CodeByName(net.stations, order, b);
    if ca.Some? && cb.Some? {
      var sa, sb := net.stations[ca.value], net.stations[cb.value];
      Norm2Swap(sa, sb);
    }
  }

  /**
   * isValidCoordinate: while a station "dummy" is registered, the answer is
   * that of a fresh station at the origin, which is always valid; otherwise
   * the world-bounds check on the arguments.
   */
  method IsValidCoordinate(net: Registry, x: int, y: int, z: int) returns (ok: bool)
    ensures "dummy" in net.stations ==> ok
    ensures "dummy" !in net.stations ==> (ok <==> InWorld(x, y, z))
  {
    if net.GetStation("dummy").Some? {
      var dummy := new Station("dummy", "dummy");
      ok := dummy.IsValidCoordinate();
    } else {
      ok := -30000000 <= x <= 30000000 && -2048 <= y <= 2048 && -30000000 <= z <= 30000000;
    }
  }

  /** generateStationCode's base: every character outside [a-zA-Z0-9] becomes '_', then lower case. */
  function CodeBase(name: string): (r: string)
    ensures |r| == |name|
    ensures forall i :: 0 <= i < |r| ==> ('a' <= r[i] <= 'z') || ('0' <= r[i] <= '9') || r[i] == '_'
  {
    seq(|name|, i requires 0 <= i < |name| =>
      var c := name[i];
      if ('a' <= c <= 'z') || ('A' <= c <= 'Z') || ('0' <= c <= '9') then LowerChar(c) else '_')
  }

  /** The k-th alternative code: base, '_' and k. */
  function Candidate(base: string, k: nat): string
  {
    base + "_" + NatToString(k)
  }

  lemma CandidateInjective(base: string, j: nat, k: nat)
    requires Candidate(base, j) == Candidate(base, k)
    ensures j == k
  {
    var cj, ck := Candidate(base, j), Candidate(base, k);
    assert cj[|base| + 1..] == NatToString(j);
    assert ck[|base| + 1..] == NatToString(k);
    NatToStringInjective(j, k);
  }

  /** base_k is the first alternative: every base_j before it is taken. */
  ghost predicate FirstFree(stations: map<string, Station>, base: string, k: nat)
  {
    1 <= k && forall j: nat :: 1 <= j < k ==> Candidate(base, j) in stations
  }

  /**
   * generateStationCode: the base if no station has it, otherwise the first
   * of base_1, base_2, ... that no station has; the result is never a
   * registered code.
   */
  method GenerateStationCode(net: Registry, name: string) returns (code: string)
    ensures code !in net.stations
    ensures var base := CodeBase(name);
      code == base || (base in net.stations && exists k: nat :: FirstFree(net.stations, base, k) && code == Candidate(base, k))
  {
    var base := CodeBase(name);
    var suffix: nat := 1;
    code := base;
    ghost var tried: set<string> := {};
    while net.GetStation(code).Some?
      invariant suffix >= 1
      invariant code == if suffix == 1 then base else Candidate(base, suffix - 1)
      invariant suffix > 1 ==> base in net.stations
      invariant forall j: nat :: 1 <= j < suffix - 1 ==> Candidate(base, j) in net.stations
      invariant tried <= net.stations.Keys
      invariant forall t :: t in tried ==> (t == base && suffix > 1) || exists j: nat :: 1 <= j < suffix - 1 && t == Candidate(base, j)
      decreases |net.stations.Keys - tried|
    {
      assert code !in tried by {
        forall t | t in tried
          ensures t != code
        {
          if t != base {
            var j: nat :| 1 <= j < suffix - 1 && t == Candidate(base, j);
            if t == code {
              CandidateInjective(base, j, suffix - 1);
            }
          }
        }
      }
      tried := tried + {code};
      code := Candidate(base, suffix);
      suffix := suffix + 1;
    }
    if suffix > 1 {
      assert code == Candidate(base, suffix - 1);
    }
  }

  /**
   * addStation(name, x, y, z): generates a free code from the name and
   * registers a station there; the registry refuses an empty code or a
   * position outside the world, and then nothing changes.
   */
  method AddStation(net: Registry, name: string, x: int, y: int, z: int) returns (code: string)
    requires net.Valid()
    modifies net
    ensures net.Valid()
    ensures code !in old(net.stations)
    ensures code != "" && InWorld(x, y, z) ==>
              code in net.stations && net.stations == old(net.stations)[code := net.stations[code]]
              && fresh(net.stations[code]) && net.stations[code].name == name
              && net.stations[code].x == x && net.stations[code].y == y && net.stations[code].z == z
    ensures code == "" || !InWorld(x, y, z) ==> net.stations == old(net.stations)
    ensures net.lines == old(net.lines) && net.fares == old(net.fares)
  {
    code := GenerateStationCode(net, name);
    var station := new Station(code, name);
    station.SetCoordinates(x, y, z);
    var _ := net.AddStation(station);
  }

  /** removeStation(name): removes the first station with that name, if any, through the registry. */
  method RemoveStation(net: Registry, order: seq<string>, name: string)
    requires net.Valid() && Enumerates(order, net.stations)
    modifies net, net.lines.Values
    ensures net.Valid()
    ensures var c := old(CodeByName(net.stations, order, name));
      && (c.None? ==> net.stations == old(net.stations) && net.fares == old(net.fares)
                      && forall l :: l in old(net.lines).Values ==> l.stationCodes == old(l.stationCodes))
      && (c.Some? ==> net.stations == old(net.stations) - {c.value} && net.fares == FaresWithout(old(net.fares), c.value)
                      && forall l :: l in old(net.lines).Values ==> l.stationCodes == RemoveFirst(old(l.stationCodes), c.value))
    ensures net.lines == old(net.lines)
  {
    var code := FindStationCodeByName(net, order, name);
    if code.Some? {
      var _ := net.RemoveStation(code.value);
    }
  }

  /** The names of all registered stations. */
  ghost function AllNames(stations: map<string, Station>): set<string>
    reads stations.Values
  {
    set k | k in stations :: stations[k].name
  }

  /** getStations: collects every station's name into a set. */
  method StationNames(net: Registry, order: seq<string>) returns (names: set<string>)
    requires Enumerates(order, net.stations)
    ensures names == AllNames(net.stations)
    ensures forall n :: n in names <==> CodeByName(net.stations, order, n).Some?
  {
    names := {};
    for i := 0 to |order|
      invariant names == set j | 0 <= j < i :: net.stations[order[j]].name
    {
      names := names + {net.stations[order[i]].name};
    }
    forall n
      ensures n in names <==> n in AllNames(net.stations)
    {
      if n in AllNames(net.stations) {
        var k :| k in net.stations && net.stations[k].name == n;
        var j :| 0 <= j < |order| && order[j] == k;
      }
    }
  }

  /**
   * getStationData(name): the coordinates of the first station with that
   * name, or null (None) when no station has it.
   */
  method StationCoordinates(net: Registry, order: seq<string>, name: string) returns (r: Option<(int, int, int)>)
    requires net.Valid() && Enumerates(order, net.stations)
    ensures r.None? <==> CodeByName(net.stations, order, name).None?
    ensures r.Some? ==> var s := net.stations[CodeByName(net.stations, order, name).value]; r.value == (s.x, s.y, s.z)
  {
    var code := FindStationCodeByName(net, order, name);
    if code.None? {
      return None;
    }
    match net.GetStation(code.value)
    case None =>
      assert false;
      return None;
    case Some(s) =>
      return Some((s.x, s.y, s.z));
  }

  /** containsStation(name): some station has exactly that name. */
  method ContainsStation(net: Registry, order: seq<string>, name: string) returns (ok: bool)
    requires net.Valid() && Enumerates(order, net.stations)
    ensures ok <==> exists k :: k in net.stations && net.stations[k].name == name
  {
    var code := FindStationCodeByName(net, order, name);
    ok := code.Some?;
  }

  /** addStationWithCode: registers a station under the given code, as the registry allows. */
  method AddStationWithCode(net: Registry, code: string, name: string, x: int, y: int, z: int) returns (ok: bool)
    requires net.Valid()
    modifies net
    ensures net.Valid()
    ensures ok <==> code != "" && InWorld(x, y, z)
    ensures ok ==> code in net.stations && net.stations == old(net.stations)[code := net.stations[code]]
                   && fresh(net.stations[code]) && net.stations[code].name == name
    ensures !ok ==> net.stations == old(net.stations)
    ensures net.lines == old(net.lines) && net.fares == old(net.fares)
  {
    var station := new Station(code, name);
    station.SetCoordinates(x, y, z);
    ok := net.AddStation(station);
  }

  /** getStationName(code): the name of the station under that code, or null (None). */
  function StationName(net: Registry, code: string): (r: Option<string>)
    reads net, net.stations.Values
    ensures r.Some? <==> code in net.stations
    ensures r.Some? ==> r.value == net.stations[code].name
  {
    match net.GetStation(code)
    case None => None
    case Some(s) => Some(s.name)
  }

  /** Looking a station up by its own name finds a station of that name, and the name lookup agrees with getStationName. */
  lemma NameLookupRoundTrip(net: Registry, order: seq<string>, code: string)
    requires Enumerates(order, net.stations) && code in net.stations
    ensures var c := CodeByName(net.stations, order, net.stations[code].name);
      c.Some? && StationName(net, c.value) == StationName(net, code)
  {
  }
}
