/**
 * The graph the cheapest-route search walks (manager/RouteCalculator.java,
 * getNeighbors, findLineForSegment and estimateFare). The search reads the
 * registry through its getters: the set of station codes, the fare map, the
 * fares and the lines in their maps' iteration order, and a line by id.
 * NetView holds exactly that, as values.
 */
module RouteGraph {
  import opened Wrappers
  import opened FareData
  import opened LineData
  import opened Network

  /** A line as the search sees it: its id and its station codes. */
  datatype LineView = LineView(id: string, codes: seq<string>)

  /**
   * The registry as the search sees it: the registered codes, the fare map,
   * getAllFares and getAllLines in iteration order, and getLine by id.
   */
  datatype NetView = NetView(stations: set<string>, fares: map<string, Fare>, fareList: seq<Fare>,
                             lineList: seq<LineView>, lineCodes: map<string, seq<string>>)

  /** A neighbour entry: the station reached, the price of the hop and the line it is on, if one was found. */
  datatype Neighbor = Neighbor(station: string, price: int, line: Option<string>)

  /** A hop without its line: where it goes and what it costs. */
  datatype Arc = Arc(to: string, price: int)

  // ---------------- reading the registry ----------------

  /** The fares stored under the given keys, in the order given. */
  function FaresAt(fares: map<string, Fare>, keys: seq<string>): (r: seq<Fare>)
    requires forall i :: 0 <= i < |keys| ==> keys[i] in fares
    ensures |r| == |keys| && forall i :: 0 <= i < |keys| ==> r[i] == fares[keys[i]]
  {
    if keys == [] then [] else [fares[keys[0]]] + FaresAt(fares, keys[1..])
  }

  /** The lines stored under the given ids, in the order given, read as values. */
  function LinesAt(lines: map<string, Line>, ids: seq<string>): (r: seq<LineView>)
    requires forall i :: 0 <= i < |ids| ==> ids[i] in lines
    reads lines.Values
    ensures |r| == |ids|
    ensures forall i :: 0 <= i < |ids| ==> r[i] == LineView(lines[ids[i]].id, lines[ids[i]].stationCodes)
  {
    if ids == [] then [] else [LineView(lines[ids[0]].id, lines[ids[0]].stationCodes)] + LinesAt(lines, ids[1..])
  }

  /** keys lists every key of m once: the map's iteration order. */
  ghost predicate Enumerates<T>(keys: seq<string>, m: map<string, T>)
  {
    NoDup(keys) && (forall i :: 0 <= i < |keys| ==> keys[i] in m) && (forall k :: k in m ==> k in keys)
  }

  /**
   * What the search reads from the registry, given the iteration orders of
   * its fare and line maps.
   */
  function View(net: Registry, fareKeys: seq<string>, lineIds: seq<string>): (v: NetView)
    requires Enumerates(fareKeys, net.fares) && Enumerates(lineIds, net.lines)
    reads net, net.lines.Values
    ensures v.stations == net.stations.Keys && v.fares == net.fares
  {
    NetView(net.stations.Keys, net.fares, FaresAt(net.fares, fareKeys), LinesAt(net.lines, lineIds),
            map id | id in net.lines :: net.lines[id].stationCodes)
  }

  // ---------------- findLineForSegment ----------------

  /** to sits next to from on a line with these codes (at the first occurrence of from). */
  predicate NextTo(codes: seq<string>, from: string, to: string)
  {
    var adj := AdjacentOf(codes, from);
    adj.Some? && (adj.value.prev == Some(to) || adj.value.next == Some(to))
  }

  /** The first listed line holding both codes with to next to from. */
  function FirstLineThrough(ls: seq<LineView>, from: string, to: string): (r: Option<string>)
    ensures r.Some? ==> exists i :: 0 <= i < |ls| && ls[i].id == r.value && NextTo(ls[i].codes, from, to)
    ensures r.None? <==> forall i :: 0 <= i < |ls| ==> !(from in ls[i].codes && to in ls[i].codes && NextTo(ls[i].codes, from, to))
  {
    if ls == [] then None
    else if from in ls[0].codes && to in ls[0].codes && NextTo(ls[0].codes, from, to) then Some(ls[0].id)
    else
      var r := FirstLineThrough(ls[1..], from, to);
      assert forall i :: 1 <= i < |ls| ==> ls[i] == ls[1..][i - 1];
      r
  }

  /**
   * findLineForSegment: the current line when it has the two codes next to
   * each other, else the first line that does, else none.
   */
  function LineForSegment(v: NetView, from: string, to: string, current: Option<string>): Option<string>
  {
    if current.Some? && current.value in v.lineCodes && NextTo(v.lineCodes[current.value], from, to) then current
    else FirstLineThrough(v.lineList, from, to)
  }

  /**
   * The line found is one on which the two codes are neighbours; the
   * current line wins whenever it qualifies, and none is found only when no
   * listed line qualifies.
   */
  lemma LineForSegmentSpec(v: NetView, from: string, to: string, current: Option<string>)
    ensures var r := LineForSegment(v, from, to, current);
      && (current.Some? && current.value in v.lineCodes && NextTo(v.lineCodes[current.value], from, to) ==> r == current)
      && (r.Some? && r != current ==> exists i :: 0 <= i < |v.lineList| && v.lineList[i].id == r.value && NextTo(v.lineList[i].codes, from, to))
      && (r.None? ==> forall i :: 0 <= i < |v.lineList| ==> !NextTo(v.lineList[i].codes, from, to))
  {
  }

  // ---------------- estimateFare ----------------

  /**
   * estimateFare: the stored fare's price when there is one; 100 when
   * either code is not a station; otherwise max(10, distance / 100), where
   * approx stands for the floating-point (int) (distance / 100).
   */
  function EstimateFare(v: NetView, from: string, to: string, approx: (string, string) -> int): int
  {
    match LookupFare(v.fares, from, to)
    case Some(f) => f.price
    case None => if from !in v.stations || to !in v.stations then 100 else if approx(from, to) > 10 then approx(from, to) else 10
  }

  /** With every stored price positive, so is every estimate (at least 10 when nothing is stored). */
  lemma EstimateFarePositive(v: NetView, from: string, to: string, approx: (string, string) -> int)
    requires FaresPositive(v.fares)
    ensures EstimateFare(v, from, to, approx) > 0
    ensures LookupFare(v.fares, from, to).None? ==> EstimateFare(v, from, to, approx) >= 10
  {
    LookupFareSymmetric(v.fares, from, to);
    FareKeySymmetric(from, to);
  }

  // ---------------- getNeighbors ----------------

  /** The other end of a fare touching code (from tested first), or none. */
  function OtherEnd(f: Fare, code: string): Option<string>
  {
    if f.from == code then Some(f.to) else if f.to == code then Some(f.from) else None
  }

  /** Method 1 of getNeighbors: every listed fare touching the code with a positive price, in list order. */
  function FareNeighbors(v: NetView, fs: seq<Fare>, code: string, current: Option<string>): seq<Neighbor>
  {
    if fs == [] then []
    else
      var other := OtherEnd(fs[0], code);
      (if other.Some? && fs[0].price > 0 then [Neighbor(other.value, fs[0].price, LineForSegment(v, code, other.value, current))] else [])
      + FareNeighbors(v, fs[1..], code, current)
  }

  /** Method 2 of getNeighbors: for each listed line holding the code, the codes before and after it, priced by estimateFare. */
  function LineNeighbors(v: NetView, ls: seq<LineView>, code: string, approx: (string, string) -> int): seq<Neighbor>
  {
    if ls == [] then []
    else
      var adj := if code in ls[0].codes then AdjacentOf(ls[0].codes, code) else None;
      (match adj
       case None => []
       case Some(a) =>
         (if a.prev.Some? then [Neighbor(a.prev.value, EstimateFare(v, code, a.prev.value, approx), Some(ls[0].id))] else [])
         + (if a.next.Some? then [Neighbor(a.next.value, EstimateFare(v, code, a.next.value, approx), Some(ls[0].id))] else []))
      + LineNeighbors(v, ls[1..], code, approx)
  }

  /** getNeighbors: the fare neighbours, or the line neighbours when there are none. */
  function Neighbors(v: NetView, code: string, current: Option<string>, approx: (string, string) -> int): seq<Neighbor>
  {
    var byFare := FareNeighbors(v, v.fareList, code, current);
    if byFare == [] then LineNeighbors(v, v.lineList, code, approx) else byFare
  }

  /** The hops of a neighbour list, without their lines. */
  function Strip(ns: seq<Neighbor>): (r: seq<Arc>)
    ensures |r| == |ns| && forall i :: 0 <= i < |ns| ==> r[i] == Arc(ns[i].station, ns[i].price)
  {
    if ns == [] then [] else [Arc(ns[0].station, ns[0].price)] + Strip(ns[1..])
  }

  /**
   * The fare neighbours are exactly the other ends of the listed fares
   * touching the code with a positive price, each labelled with the line
   * findLineForSegment picks for it.
   */
  lemma {:induction false} FareNeighborsSpec(v: NetView, fs: seq<Fare>, code: string, current: Option<string>, n: Neighbor)
    ensures n in FareNeighbors(v, fs, code, current) <==>
              n.line == LineForSegment(v, code, n.station, current)
              && exists f :: f in fs && f.price == n.price > 0 && OtherEnd(f, code) == Some(n.station)
  {
    if fs != [] {
      FareNeighborsSpec(v, fs[1..], code, current, n);
      var rest := FareNeighbors(v, fs[1..], code, current);
      if n in rest {
        var f :| f in fs[1..] && f.price == n.price > 0 && OtherEnd(f, code) == Some(n.station);
        assert f in fs;
      }
      if n.line == LineForSegment(v, code, n.station, current) && n !in FareNeighbors(v, fs, code, current) {
        forall f | f in fs && f.price == n.price > 0
          ensures OtherEnd(f, code) != Some(n.station)
        {
          if f != fs[0] {
            assert f in fs[1..];
          }
        }
      }
    }
  }

  /** The line labels do not change which hops there are or what they cost. */
  lemma {:induction false} FareNeighborsLineBlind(v: NetView, fs: seq<Fare>, code: string, c1: Option<string>, c2: Option<string>)
    ensures Strip(FareNeighbors(v, fs, code, c1)) == Strip(FareNeighbors(v, fs, code, c2))
  {
    if fs != [] {
      FareNeighborsLineBlind(v, fs[1..], code, c1, c2);
    }
  }

  /** Every line neighbour's price is positive when every stored fare's is. */
  lemma {:induction false} LineNeighborsPositive(v: NetView, ls: seq<LineView>, code: string, approx: (string, string) -> int)
    requires FaresPositive(v.fares)
    ensures forall i :: 0 <= i < |LineNeighbors(v, ls, code, approx)| ==> LineNeighbors(v, ls, code, approx)[i].price > 0
  {
    if ls != [] {
      LineNeighborsPositive(v, ls[1..], code, approx);
      var adj := if code in ls[0].codes then AdjacentOf(ls[0].codes, code) else None;
      if adj.Some? {
        var a := adj.value;
        if a.prev.Some? { EstimateFarePositive(v, code, a.prev.value, approx); }
        if a.next.Some? { EstimateFarePositive(v, code, a.next.value, approx); }
      }
    }
  }

  /** Every fare neighbour's price is positive: the others are skipped. */
  lemma {:induction false} FareNeighborsPositive(v: NetView, fs: seq<Fare>, code: string, current: Option<string>)
    ensures forall i :: 0 <= i < |FareNeighbors(v, fs, code, current)| ==> FareNeighbors(v, fs, code, current)[i].price > 0
  {
    if fs != [] {
      FareNeighborsPositive(v, fs[1..], code, current);
    }
  }

  /**
   * getNeighbors: the line neighbours are used exactly when no listed fare
   * touches the code with a positive price; the hops do not depend on the
   * current line; and every hop costs something when every stored fare
   * does.
   */
  lemma NeighborsSpec(v: NetView, code: string, current: Option<string>, approx: (string, string) -> int)
    ensures Neighbors(v, code, current, approx) ==
              if exists f :: f in v.fareList && f.price > 0 && OtherEnd(f, code).Some?
              then FareNeighbors(v, v.fareList, code, current)
              else LineNeighbors(v, v.lineList, code, approx)
    ensures Strip(Neighbors(v, code, current, approx)) == Strip(Neighbors(v, code, None, approx))
    ensures FaresPositive(v.fares) ==>
              forall i :: 0 <= i < |Neighbors(v, code, current, approx)| ==> Neighbors(v, code, current, approx)[i].price > 0
  {
    var byFare := FareNeighbors(v, v.fareList, code, current);
    if exists f :: f in v.fareList && f.price > 0 && OtherEnd(f, code).Some? {
      var f :| f in v.fareList && f.price > 0 && OtherEnd(f, code).Some?;
      var n := Neighbor(OtherEnd(f, code).value, f.price, LineForSegment(v, code, OtherEnd(f, code).value, current));
      FareNeighborsSpec(v, v.fareList, code, current, n);
    } else if byFare != [] {
      FareNeighborsSpec(v, v.fareList, code, current, byFare[0]);
      assert false;
    }
    FareNeighborsLineBlind(v, v.fareList, code, current, None);
    assert |byFare| == |Strip(byFare)| == |Strip(FareNeighbors(v, v.fareList, code, None))|;
    FareNeighborsPositive(v, v.fareList, code, current);
    if FaresPositive(v.fares) {
      LineNeighborsPositive(v, v.lineList, code, approx);
    }
  }
}
