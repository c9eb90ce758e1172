/**
 * What the ticket price service (manager/PriceCalculator.java) may answer:
 * the services a price depends on, the distance price, the conversion of
 * names to station codes, and the table, route and distance prices a
 * quote may take.
 */
module PriceSpec {
  import opened Wrappers
  import opened Text
  import opened FareData
  import opened StationData
  import opened Network
  import opened RouteGraph
  import opened SearchState
  import opened RouteCalc
  import opened StationCompat

  /**
   * The services the price depends on: the fare estimate of unpriced line
   * segments, Math.sqrt, the configured price of a whole number of blocks
   * (None where the configuration call throws) and the active discount.
   */
  datatype Pricing = Pricing(approx: (string, string) -> int, sqrt: int -> real,
                             totalCost: int -> Option<int>, discount: int -> int)

  /**
   * calculatePriceByDistance: 0 when the names are not both known (the
   * distance is then 0); otherwise the configured price of the distance
   * truncated to whole blocks, or the default 100 when that throws.
   */
  function DistancePrice(stations: map<string, Station>, order: seq<string>, pricing: Pricing, a: string, b: string): (p: int)
    requires Enumerates(order, stations)
    reads stations.Values
    ensures CodeByName(stations, order, a).None? || CodeByName(stations, order, b).None? ==> p == 0
  {
    var d := Distance(stations, order, pricing.sqrt, a, b);
    if d <= 0.0 then 0
    else
      match pricing.totalCost(d.Floor)
      case None => 100
      case Some(c) => c
  }

  /** The pattern \d{2}-\d{2} matched against the whole identifier. */
  predicate IsCodeShape(s: string)
  {
    |s| == 5 && IsDigit(s[0]) && IsDigit(s[1]) && s[2] == '-' && IsDigit(s[3]) && IsDigit(s[4])
  }

  /** The code of the first station from position i on, in iteration order, named or coded id. */
  function FirstMatch(stations: map<string, Station>, order: seq<string>, id: string, i: nat): Option<string>
    requires Enumerates(order, stations) && i <= |order|
    reads stations.Values
    decreases |order| - i
  {
    if i == |order| then None
    else
      var s := stations[order[i]];
      if s.name == id || s.code == id then Some(s.code) else FirstMatch(stations, order, id, i + 1)
  }

  /**
   * convertToStationCode: an identifier shaped like a code that is a
   * station stands for itself; otherwise the first station in iteration
   * order whose name or code equals it; None (null) when there is none.
   */
  function ConvertCode(stations: map<string, Station>, order: seq<string>, id: string): Option<string>
    requires Enumerates(order, stations)
    reads stations.Values
  {
    if IsCodeShape(id) && id in stations then Some(id) else FirstMatch(stations, order, id, 0)
  }

  /**
   * What calculatePriceByFareTable may answer for two codes without a
   * stored fare: the price of a cheapest route in the neighbour graph (path
   * with hop prices ws); otherwise, when there is no route or the codes are
   * equal or empty, the distance price of the codes.
   */
  ghost predicate RoutePriced(net: Registry, fareKeys: seq<string>, lineIds: seq<string>, order: seq<string>,
                              pricing: Pricing, a: string, b: string, p: int, path: seq<string>, ws: seq<int>)
    requires Enumerates(fareKeys, net.fares) && Enumerates(lineIds, net.lines) && Enumerates(order, net.stations)
    reads net, net.stations.Values, net.lines.Values
  {
    var g := NeighborGraph(View(net, fareKeys, lineIds), pricing.approx);
    (p == DistancePrice(net.stations, order, pricing, a, b) && (a == "" || b == "" || a == b || NoCheaper(g, a, b, IntMax)))
    || (a != b && p > 0 && IsWalk(g, path, ws) && path[0] == a && path[|path| - 1] == b
        && Cost(ws) == p && NoCheaper(g, a, b, p))
  }

  /**
   * When the route search throws (the NullPointerException of its distance
   * lookup): two different non-empty codes, and an end that is not a
   * station or a neighbour that is not one.
   */
  ghost predicate SearchThrows(net: Registry, fareKeys: seq<string>, lineIds: seq<string>, pricing: Pricing, a: string, b: string)
    requires Enumerates(fareKeys, net.fares) && Enumerates(lineIds, net.lines)
    reads net, net.stations.Values, net.lines.Values
  {
    a != "" && b != "" && a != b
    && (b !in net.stations || StrayArc(NeighborGraph(View(net, fareKeys, lineIds), pricing.approx), net.stations.Keys + {a}))
  }

  /** What the route-or-distance step may answer: a route price, or nothing when the search throws. */
  ghost predicate RouteAnswered(net: Registry, fareKeys: seq<string>, lineIds: seq<string>, order: seq<string>,
                                pricing: Pricing, a: string, b: string, r: Option<int>, path: seq<string>, ws: seq<int>)
    requires Enumerates(fareKeys, net.fares) && Enumerates(lineIds, net.lines) && Enumerates(order, net.stations)
    reads net, net.stations.Values, net.lines.Values
  {
    match r
    case Some(p) => RoutePriced(net, fareKeys, lineIds, order, pricing, a, b, p, path, ws)
    case None => SearchThrows(net, fareKeys, lineIds, pricing, a, b)
  }

  /** What calculatePriceByFareTable may answer for two codes: a stored fare's price, else a route or distance price. */
  ghost predicate TablePriced(net: Registry, fareKeys: seq<string>, lineIds: seq<string>, order: seq<string>,
                              pricing: Pricing, a: string, b: string, p: int, path: seq<string>, ws: seq<int>)
    requires Enumerates(fareKeys, net.fares) && Enumerates(lineIds, net.lines) && Enumerates(order, net.stations)
    reads net, net.stations.Values, net.lines.Values
  {
    match net.GetFare(a, b)
    case Some(f) => p == f.price
    case None => RoutePriced(net, fareKeys, lineIds, order, pricing, a, b, p, path, ws)
  }

  /**
   * What calculatePrice computes on a cache miss: the distance price of
   * identifiers that are not both stations, the table price of their
   * codes, or the exception of the route search, which needs two codes
   * without a stored fare on which the search throws.
   */
  datatype Quote = DistanceQuote(price: int) | TableQuote(price: int) | SearchThrew

  /** The quote calculatePrice may compute for two identifiers on a cache miss. */
  ghost predicate Quoted(net: Registry, fareKeys: seq<string>, lineIds: seq<string>, order: seq<string>,
                         pricing: Pricing, s: string, d: string, q: Quote, path: seq<string>, ws: seq<int>)
    requires Enumerates(fareKeys, net.fares) && Enumerates(lineIds, net.lines) && Enumerates(order, net.stations)
    reads net, net.stations.Values, net.lines.Values
  {
    var cs, cd := ConvertCode(net.stations, order, s), ConvertCode(net.stations, order, d);
    if cs.None? || cd.None? then q == DistanceQuote(DistancePrice(net.stations, order, pricing, s, d))
    else
      match q
      case DistanceQuote(_) => false
      case TableQuote(p) => TablePriced(net, fareKeys, lineIds, order, pricing, cs.value, cd.value, p, path, ws)
      case SearchThrew =>
        net.GetFare(cs.value, cd.value).None? && SearchThrows(net, fareKeys, lineIds, pricing, cs.value, cd.value)
  }

  /**
   * The distance prices generateBasicFares computes: row p, column q is
   * the distance price between the names of the stations at positions p
   * and q of the iteration order.
   */
  ghost function PriceTable(stations: map<string, Station>, order: seq<string>, pricing: Pricing): (t: seq<seq<int>>)
    requires Enumerates(order, stations)
    reads stations.Values
    ensures |t| == |order| && forall p :: 0 <= p < |order| ==> |t[p]| == |order|
  {
    seq(|order|, p requires 0 <= p < |order| reads stations.Values =>
      seq(|order|, q requires 0 <= q < |order| reads stations.Values =>
        DistancePrice(stations, order, pricing, stations[order[p]].name, stations[order[q]].name)))
  }

  /** The fare generateBasicFares would add for the stations at positions p and q of the iteration order. */
  function PairFare(order: seq<string>, table: seq<seq<int>>, p: nat, q: nat): Fare
    requires p < |order| && q < |order| && |table| == |order| && |table[p]| == |order|
  {
    Fare(order[p], order[q], table[p][q])
  }

  /** The table's prices and its shape. */
  ghost predicate IsTable(table: seq<seq<int>>, order: seq<string>)
  {
    |table| == |order| && forall p :: 0 <= p < |order| ==> |table[p]| == |order|
  }

  /** The pair (p, q) comes before (i, j) in the nested loop's order. */
  predicate Before(p: nat, q: nat, i: nat, j: nat)
  {
    p < i || (p == i && q < j)
  }

  /** Every pair visited before (i, j) has a fare, or its distance fare is not a valid one. */
  ghost predicate PairsCovered(fares: map<string, Fare>, order: seq<string>, table: seq<seq<int>>, i: nat, j: nat)
    requires IsTable(table, order)
  {
    forall p, q :: 0 <= p < q < |order| && Before(p, q, i, j) ==>
      FareKey(order[p], order[q]) in fares || !PairFare(order, table, p, q).IsValid()
  }

  /** The fares are those of f0 plus, under their keys, fares generated for station pairs. */
  ghost predicate Extends(f0: map<string, Fare>, fares: map<string, Fare>, order: seq<string>, table: seq<seq<int>>)
    requires IsTable(table, order)
  {
    (forall k :: k in f0 ==> k in fares && fares[k] == f0[k])
    && (forall k :: k in fares && k !in f0 ==>
          exists p, q :: 0 <= p < q < |order| && k == FareKey(order[p], order[q])
                         && fares[k] == NormalizeFare(PairFare(order, table, p, q)))
  }
}
