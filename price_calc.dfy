/**
 * The ticket price service (manager/PriceCalculator.java): a price between
 * two stations given by name or code, looked up in the fare table, then
 * along the cheapest route, then by distance; a bounded cache of table
 * prices under a direction-free key; and the generation of a basic fare
 * table from station distances.
 *
 * The price configuration (TicketSystemConfig), the discount service, the
 * coin service, Math.sqrt and the getNeighbors fare estimate are outside
 * this model and come in as the functions of a Pricing value.
 */
module PriceCalc {
  import opened Wrappers
  import opened Text
  import opened FareData
  import opened StationData
  import opened LineData
  import opened RouteData
  import opened Network
  import opened RouteGraph
  import opened RouteCalc
  import opened SearchState
  import opened StationCompat
  import opened PriceSpec

  /** CACHE_SIZE. */
  const CacheSize: nat := 100

  /** How many keys a full cache drops before an insert. */
  const Evictions: nat := CacheSize / 2

  // ---------------- calculatePriceByDistance ----------------

  /** calculatePriceByDistance: measures, then prices. */
  method PriceByDistance(net: Registry, order: seq<string>, pricing: Pricing, a: string, b: string) returns (p: int)
    requires net.Valid() && Enumerates(order, net.stations)
    ensures p == DistancePrice(net.stations, order, pricing, a, b)
  {
    var d := StationCompat.CalculateDistance(net, order, pricing.sqrt, a, b);
    if d <= 0.0 {
      return 0;
    }
    match pricing.totalCost(d.Floor)
    case None =>
      p := 100;
    case Some(c) =>
      p := c;
  }

  /** The distance price does not depend on the direction of travel. */
  lemma DistancePriceSymmetric(net: Registry, order: seq<string>, pricing: Pricing, a: string, b: string)
    requires Enumerates(order, net.stations)
    ensures DistancePrice(net.stations, order, pricing, a, b) == DistancePrice(net.stations, order, pricing, b, a)
  {
    DistanceSymmetric(net, order, pricing.sqrt, a, b);
  }

  // ---------------- getNormalizedCacheKey ----------------

  /** getNormalizedCacheKey: the two identifiers joined by "->", the one that sorts first in front. */
  function CacheKey(a: string, b: string): string
  {
    if LexLe(a, b) then a + "->" + b else b + "->" + a
  }

  /** Both directions of travel share one cache entry. */
  lemma CacheKeySymmetric(a: string, b: string)
    ensures CacheKey(a, b) == CacheKey(b, a)
  {
    LexLeTotal(a, b);
    if LexLe(a, b) && LexLe(b, a) {
      LexLeAntisymmetric(a, b);
    }
  }

  // ---------------- convertToStationCode ----------------

  /** The first match is a station named or coded id, and there is none only when no station from i on is. */
  lemma {:induction false} FirstMatchSpec(net: Registry, order: seq<string>, id: string, i: nat)
    requires net.Valid() && Enumerates(order, net.stations) && i <= |order|
    ensures var r := FirstMatch(net.stations, order, id, i);
      && (r.Some? ==> r.value in net.stations && (r.value == id || net.stations[r.value].name == id))
      && (r.None? <==> forall j :: i <= j < |order| ==> order[j] != id && net.stations[order[j]].name != id)
    decreases |order| - i
  {
    if i < |order| {
      FirstMatchSpec(net, order, id, i + 1);
    }
  }

  /** A converted identifier is a station named or coded so; only an identifier that is neither converts to None. */
  lemma ConvertCodeSpec(net: Registry, order: seq<string>, id: string)
    requires net.Valid() && Enumerates(order, net.stations)
    ensures var r := ConvertCode(net.stations, order, id);
      && (r.Some? ==> r.value in net.stations && (r.value == id || net.stations[r.value].name == id))
      && (r.None? <==> id !in net.stations && forall k :: k in net.stations ==> net.stations[k].name != id)
      && (IsCodeShape(id) && id in net.stations ==> r == Some(id))
  {
    FirstMatchSpec(net, order, id, 0);
    if ConvertCode(net.stations, order, id).None? {
      forall k | k in net.stations
        ensures net.stations[k].name != id
      {
        var j :| 0 <= j < |order| && order[j] == k;
      }
    }
  }

  /** convertToStationCode: the code check, then the scan over all stations. */
  method ConvertToStationCode(net: Registry, order: seq<string>, id: string) returns (r: Option<string>)
    requires Enumerates(order, net.stations)
    ensures r == ConvertCode(net.stations, order, id)
  {
    if IsCodeShape(id) && id in net.stations {
      return Some(id);
    }
    for i := 0 to |order|
      invariant FirstMatch(net.stations, order, id, i) == FirstMatch(net.stations, order, id, 0)
    {
      var s := net.stations[order[i]];
      if s.name == id || s.code == id {
        return Some(s.code);
      }
    }
    r := None;
  }

  // ---------------- calculatePriceByFareTable ----------------

  /** A walk with at least one hop costs something. */
  lemma WalkCostPositive(nb: Graph, p: seq<string>, ws: seq<int>)
    requires SearchGraph(nb) && IsWalk(nb, p, ws) && p[0] != p[|p| - 1]
    ensures Cost(ws) > 0
  {
    AdjPositive(nb, p[0], Arc(p[1], ws[0]));
    assert IsWalk(nb, p[1..], ws[1..]) by {
      forall i | 0 <= i < |ws[1..]|
        ensures Arc(p[1..][i + 1], ws[1..][i]) in Adj(nb, p[1..][i])
      {
        assert Arc(p[i + 2], ws[i + 1]) in Adj(nb, p[i + 1]);
      }
    }
    CostPositiveWalk(nb, p[1..], ws[1..]);
  }

  /**
   * The second and third methods of calculatePriceByFareTable: a cheapest
   * route with a positive price, else the distance price. None is the
   * NullPointerException the search throws at a neighbour that is not a
   * station.
   */
  method RoutePrice(net: Registry, fareKeys: seq<string>, lineIds: seq<string>, order: seq<string>,
                    pricing: Pricing, a: string, b: string)
    returns (r: Option<int>, ghost path: seq<string>, ghost ws: seq<int>)
    requires net.Valid() && Enumerates(fareKeys, net.fares) && Enumerates(lineIds, net.lines) && Enumerates(order, net.stations)
    ensures RouteAnswered(net, fareKeys, lineIds, order, pricing, a, b, r, path, ws)
  {
    path := [];
    ghost var view := View(net, fareKeys, lineIds);
    var route;
    route, ws := FindCheapestRoute(net, fareKeys, lineIds, pricing.approx, a, b);
    assert view == View(net, fareKeys, lineIds);
    if route.NullPointer? {
      return None, path, ws;
    }
    if route.Found? && route.route.totalPrice > 0 {
      path := route.route.stationPath;
      PricedByRoute(net, fareKeys, lineIds, order, pricing, a, b, route.route.totalPrice, path, ws);
      return Some(route.route.totalPrice), path, ws;
    }
    if route.Found? && a != b {
      HopCostsPositive(view, pricing.approx, route.route.stationPath, ws);
      assert false;
    }
    assert a == "" || b == "" || a == b || NoCheaper(NeighborGraph(view, pricing.approx), a, b, IntMax);
    var p := DistanceFallback(net, fareKeys, lineIds, order, pricing, a, b, path, ws);
    r := Some(p);
  }

  /** The third method of calculatePriceByFareTable: the distance price, when no route is cheaper than MAX_VALUE. */
  method DistanceFallback(net: Registry, fareKeys: seq<string>, lineIds: seq<string>, order: seq<string>,
                          pricing: Pricing, a: string, b: string, ghost path: seq<string>, ghost ws: seq<int>)
    returns (p: int)
    requires net.Valid() && Enumerates(fareKeys, net.fares) && Enumerates(lineIds, net.lines) && Enumerates(order, net.stations)
    requires a == "" || b == "" || a == b || NoCheaper(NeighborGraph(View(net, fareKeys, lineIds), pricing.approx), a, b, IntMax)
    ensures p == DistancePrice(net.stations, order, pricing, a, b)
    ensures RoutePriced(net, fareKeys, lineIds, order, pricing, a, b, p, path, ws)
  {
    p := PriceByDistance(net, order, pricing, a, b);
    PricedByDistance(net, fareKeys, lineIds, order, pricing, a, b, p, path, ws);
  }

  /** A positive cheapest-walk price is a route price. */
  lemma PricedByRoute(net: Registry, fareKeys: seq<string>, lineIds: seq<string>, order: seq<string>,
                      pricing: Pricing, a: string, b: string, p: int, path: seq<string>, ws: seq<int>)
    requires Enumerates(fareKeys, net.fares) && Enumerates(lineIds, net.lines) && Enumerates(order, net.stations)
    requires var g := NeighborGraph(View(net, fareKeys, lineIds), pricing.approx);
      a != b && p > 0 && IsWalk(g, path, ws) && path[0] == a && path[|path| - 1] == b && Cost(ws) == p && NoCheaper(g, a, b, p)
    ensures RoutePriced(net, fareKeys, lineIds, order, pricing, a, b, p, path, ws)
  {
  }

  /** Without a route, the distance price is a route price. */
  lemma PricedByDistance(net: Registry, fareKeys: seq<string>, lineIds: seq<string>, order: seq<string>,
                         pricing: Pricing, a: string, b: string, p: int, path: seq<string>, ws: seq<int>)
    requires Enumerates(fareKeys, net.fares) && Enumerates(lineIds, net.lines) && Enumerates(order, net.stations)
    requires var g := NeighborGraph(View(net, fareKeys, lineIds), pricing.approx);
      p == DistancePrice(net.stations, order, pricing, a, b) && (a == "" || b == "" || a == b || NoCheaper(g, a, b, IntMax))
    ensures RoutePriced(net, fareKeys, lineIds, order, pricing, a, b, p, path, ws)
  {
  }

  /** A route between two different stations of the neighbour graph has a positive price. */
  lemma HopCostsPositive(view: NetView, approx: (string, string) -> int, p: seq<string>, ws: seq<int>)
    requires FaresPositive(view.fares) && IsWalk(NeighborGraph(view, approx), p, ws) && p[0] != p[|p| - 1]
    ensures Cost(ws) > 0
  {
    NeighborGraphSearchable(view, approx);
    WalkCostPositive(NeighborGraph(view, approx), p, ws);
  }

  /**
   * calculatePriceByFareTable: a stored fare with a positive price (every
   * stored price is positive), else the route or distance price.
   */
  method TablePrice(net: Registry, fareKeys: seq<string>, lineIds: seq<string>, order: seq<string>,
                    pricing: Pricing, a: string, b: string)
    returns (r: Option<int>, ghost path: seq<string>, ghost ws: seq<int>)
    requires net.Valid() && Enumerates(fareKeys, net.fares) && Enumerates(lineIds, net.lines) && Enumerates(order, net.stations)
    ensures r.Some? ==> TablePriced(net, fareKeys, lineIds, order, pricing, a, b, r.value, path, ws)
    ensures net.GetFare(a, b).Some? ==> r == Some(net.GetFare(a, b).value.price)
    ensures r.None? ==> net.GetFare(a, b).None? && SearchThrows(net, fareKeys, lineIds, pricing, a, b)
  {
    path, ws := [], [];
    var fare := net.GetFare(a, b);
    if fare.Some? && fare.value.price > 0 {
      return Some(fare.value.price), path, ws;
    }
    if fare.Some? {
      assert false;
    }
    r, path, ws := RoutePrice(net, fareKeys, lineIds, order, pricing, a, b);
  }

  // ---------------- the uncached price ----------------

  /** calculatePrice after the cache lookup: convert both identifiers, then price by distance or by the table. */
  method QuotePrice(net: Registry, fareKeys: seq<string>, lineIds: seq<string>, order: seq<string>,
                    pricing: Pricing, s: string, d: string)
    returns (q: Quote, ghost path: seq<string>, ghost ws: seq<int>)
    requires net.Valid() && Enumerates(fareKeys, net.fares) && Enumerates(lineIds, net.lines) && Enumerates(order, net.stations)
    ensures Quoted(net, fareKeys, lineIds, order, pricing, s, d, q, path, ws)
  {
    path, ws := [], [];
    var cs := ConvertToStationCode(net, order, s);
    var cd := ConvertToStationCode(net, order, d);
    if cs.None? || cd.None? {
      var p := PriceByDistance(net, order, pricing, s, d);
      QuotedByDistance(net, fareKeys, lineIds, order, pricing, s, d, p, path, ws);
      return DistanceQuote(p), path, ws;
    }
    var price;
    price, path, ws := TablePrice(net, fareKeys, lineIds, order, pricing, cs.value, cd.value);
    q := if price.Some? then TableQuote(price.value) else SearchThrew;
    QuotedByTable(net, fareKeys, lineIds, order, pricing, s, d, q, path, ws);
  }

  /** Identifiers that are not both stations are quoted their distance price. */
  lemma QuotedByDistance(net: Registry, fareKeys: seq<string>, lineIds: seq<string>, order: seq<string>,
                         pricing: Pricing, s: string, d: string, p: int, path: seq<string>, ws: seq<int>)
    requires Enumerates(fareKeys, net.fares) && Enumerates(lineIds, net.lines) && Enumerates(order, net.stations)
    requires ConvertCode(net.stations, order, s).None? || ConvertCode(net.stations, order, d).None?
    requires p == DistancePrice(net.stations, order, pricing, s, d)
    ensures Quoted(net, fareKeys, lineIds, order, pricing, s, d, DistanceQuote(p), path, ws)
  {
  }

  /** Two stations are quoted their table price, or the search's exception when they have no stored fare. */
  lemma QuotedByTable(net: Registry, fareKeys: seq<string>, lineIds: seq<string>, order: seq<string>,
                      pricing: Pricing, s: string, d: string, q: Quote, path: seq<string>, ws: seq<int>)
    requires Enumerates(fareKeys, net.fares) && Enumerates(lineIds, net.lines) && Enumerates(order, net.stations)
    requires ConvertCode(net.stations, order, s).Some? && ConvertCode(net.stations, order, d).Some?
    requires var cs, cd := ConvertCode(net.stations, order, s).value, ConvertCode(net.stations, order, d).value;
      && !q.DistanceQuote?
      && (q.TableQuote? ==> TablePriced(net, fareKeys, lineIds, order, pricing, cs, cd, q.price, path, ws))
      && (q.SearchThrew? ==> net.GetFare(cs, cd).None? && SearchThrows(net, fareKeys, lineIds, pricing, cs, cd))
    ensures Quoted(net, fareKeys, lineIds, order, pricing, s, d, q, path, ws)
  {
  }

  // ---------------- the price cache and calculatePrice ----------------

  /** The first n keys of the iteration order. */
  function FirstKeys(keyOrder: seq<string>, n: nat): set<string>
    requires n <= |keyOrder|
  {
    set i | 0 <= i < n :: keyOrder[i]
  }

  /** The number of keys a full cache drops: half the capacity, or all there are. */
  function EvictionCount(keyOrder: seq<string>): nat
  {
    if |keyOrder| < Evictions then |keyOrder| else Evictions
  }

  /** The cache after a full-cache eviction: the first keys in iteration order are gone. */
  function Evicted(cache: map<string, int>, keyOrder: seq<string>): map<string, int>
  {
    cache - FirstKeys(keyOrder, EvictionCount(keyOrder))
  }

  /** Removing n distinct present keys from a key set shrinks it by n. */
  lemma {:induction false} FirstKeysSize(keys: set<string>, keyOrder: seq<string>, n: nat)
    requires NoDup(keyOrder) && (forall i :: 0 <= i < |keyOrder| ==> keyOrder[i] in keys) && n <= |keyOrder|
    ensures |keys - FirstKeys(keyOrder, n)| == |keys| - n
  {
    if n > 0 {
      FirstKeysSize(keys, keyOrder, n - 1);
      FirstKeysSnoc(keyOrder, n);
      DropOneMore(keys, FirstKeys(keyOrder, n - 1), keyOrder[n - 1]);
    }
  }

  /** Dropping one more present key shrinks a set by one. */
  lemma DropOneMore(keys: set<string>, dropped: set<string>, x: string)
    requires x in keys && x !in dropped
    ensures |keys - (dropped + {x})| == |keys - dropped| - 1
  {
    var rest := keys - dropped;
    assert keys - (dropped + {x}) == rest - {x};
    assert rest == (rest - {x}) + {x};
  }

  /** One more key drops one more distinct key. */
  lemma FirstKeysSnoc(keyOrder: seq<string>, n: nat)
    requires NoDup(keyOrder) && 0 < n <= |keyOrder|
    ensures FirstKeys(keyOrder, n) == FirstKeys(keyOrder, n - 1) + {keyOrder[n - 1]}
    ensures keyOrder[n - 1] !in FirstKeys(keyOrder, n - 1)
  {
  }

  /** A full cache keeps all but the evicted keys, and a non-empty one drops at least one. */
  lemma EvictedSize(cache: map<string, int>, keyOrder: seq<string>)
    requires Enumerates(keyOrder, cache)
    ensures |Evicted(cache, keyOrder)| == |cache| - EvictionCount(keyOrder)
    ensures |cache| > 0 ==> EvictionCount(keyOrder) > 0
  {
    var n := EvictionCount(keyOrder);
    FirstKeysSize(cache.Keys, keyOrder, n);
    assert Evicted(cache, keyOrder).Keys == cache.Keys - FirstKeys(keyOrder, n);
    if |cache| > 0 {
      var k :| k in cache.Keys;
      assert k in keyOrder;
    }
  }

  /** getRouteDetails: both identifiers converted, then the cheapest route; no route when either is unknown. */
  method GetRouteDetails(net: Registry, fareKeys: seq<string>, lineIds: seq<string>, order: seq<string>,
                         approx: (string, string) -> int, a: string, b: string)
    returns (r: RouteResult, ghost ws: seq<int>)
    requires net.Valid() && Enumerates(fareKeys, net.fares) && Enumerates(lineIds, net.lines) && Enumerates(order, net.stations)
    ensures ConvertCode(net.stations, order, a).None? || ConvertCode(net.stations, order, b).None? ==> r.NoRoute?
    ensures r.Found? ==> var ca, cb, route := ConvertCode(net.stations, order, a).value, ConvertCode(net.stations, order, b).value, r.route;
              && fresh(route)
              && (ca == cb ==> route.stationPath == [ca, cb] && route.totalPrice == 0)
              && (ca != cb ==> var g := NeighborGraph(View(net, fareKeys, lineIds), approx);
                   route.IsValid() && route.startStation == ca && route.endStation == cb
                   && IsWalk(g, route.stationPath, ws) && Cost(ws) == route.totalPrice && NoCheaper(g, ca, cb, route.totalPrice))
  {
    var ca := ConvertToStationCode(net, order, a);
    var cb := ConvertToStationCode(net, order, b);
    if ca.None? || cb.None? {
      return NoRoute, [];
    }
    r, ws := FindCheapestRoute(net, fareKeys, lineIds, approx, ca.value, cb.value);
  }

  /** PriceResult: a price and whether the player can pay it. */
  datatype PriceResult = PriceResult(price: int, canAfford: bool)

  /** deductPayment: nothing to pay succeeds without touching the coins; otherwise the coin service decides. */
  function DeductPayment(price: int, deductWithChange: int -> bool): (paid: bool)
    ensures price <= 0 ==> paid
    ensures price > 0 ==> (paid <==> deductWithChange(price))
  {
    price <= 0 || deductWithChange(price)
  }

  /** The registry's data checks, as validateFareTable passes them on. */
  method ValidateFareTable(net: Registry) returns (issues: seq<Issue>)
    ensures forall id, c :: UnknownLineStation(id, c) in issues <==> id in net.lines && c in net.lines[id].stationCodes && c !in net.stations
    ensures forall c :: UnknownFareFrom(c) in issues <==> c !in net.stations && exists k :: k in net.fares && net.fares[k].from == c
    ensures forall c :: UnknownFareTo(c) in issues <==> c !in net.stations && exists k :: k in net.fares && net.fares[k].to == c
  {
    issues := net.ValidateData();
  }

  /** The price cache: at most CACHE_SIZE table prices under direction-free keys. */
  class PriceCalculator {
    var cache: map<string, int>

    ghost predicate Valid()
      reads this
    {
      |cache| <= CacheSize
    }

    constructor ()
      ensures cache == map[] && Valid()
    {
      cache := map[];
    }

    /** The eviction loop: drops keys in iteration order, at most half the capacity of them. */
    method Evict(keyOrder: seq<string>)
      requires Enumerates(keyOrder, cache)
      modifies this
      ensures cache == Evicted(old(cache), keyOrder)
    {
      ghost var c0 := cache;
      var i := 0;
      while i < Evictions && i < |keyOrder|
        invariant 0 <= i <= |keyOrder| && i <= Evictions
        invariant cache == c0 - FirstKeys(keyOrder, i)
      {
        cache := cache - {keyOrder[i]};
        assert FirstKeys(keyOrder, i + 1) == FirstKeys(keyOrder, i) + {keyOrder[i]};
        i := i + 1;
      }
    }

    /**
     * What calculatePrice answers, relating the cache before and after:
     * 0 for a missing or empty identifier and for equal identifiers; the
     * cached table price, undiscounted, on a cache hit; otherwise the quote
     * for the pair: a distance quote is returned as it is and not cached, a
     * table quote is stored in the cache (after dropping half of a full
     * cache) and returned discounted, and an exception (None) leaves the
     * cache as it was.
     */
    twostate predicate PriceOutcome(net: Registry, fareKeys: seq<string>, lineIds: seq<string>, order: seq<string>,
                                    keyOrder: seq<string>, pricing: Pricing, start: Option<string>, dest: Option<string>,
                                    new r: Option<int>, new q: Quote, new path: seq<string>, new ws: seq<int>)
      requires old(Enumerates(fareKeys, net.fares) && Enumerates(lineIds, net.lines) && Enumerates(order, net.stations))
      reads this
    {
      && (start.None? || dest.None? || start.value == "" || dest.value == "" || start == dest ==>
            r == Some(0) && cache == old(cache))
      && (start.Some? && dest.Some? && start.value != "" && dest.value != "" && start != dest ==>
            var key := CacheKey(start.value, dest.value);
            && (key in old(cache) ==> r == Some(old(cache)[key]) && cache == old(cache))
            && (key !in old(cache) ==>
                  && old(Quoted(net, fareKeys, lineIds, order, pricing, start.value, dest.value, q, path, ws))
                  && match q
                     case DistanceQuote(p) => r == Some(p) && cache == old(cache)
                     case SearchThrew => r.None? && cache == old(cache)
                     case TableQuote(p) =>
                       && r == Some(pricing.discount(p))
                       && cache == (if |old(cache)| >= CacheSize then Evicted(old(cache), keyOrder) else old(cache))[key := p]))
    }

    /** calculatePrice, with the price cache as the only state it changes. */
    method CalculatePrice(net: Registry, fareKeys: seq<string>, lineIds: seq<string>, order: seq<string>,
                          keyOrder: seq<string>, pricing: Pricing, start: Option<string>, dest: Option<string>)
      returns (r: Option<int>, ghost q: Quote, ghost path: seq<string>, ghost ws: seq<int>)
      requires Valid() && net.Valid()
      requires Enumerates(fareKeys, net.fares) && Enumerates(lineIds, net.lines) && Enumerates(order, net.stations)
      requires Enumerates(keyOrder, cache)
      modifies this
      ensures Valid()
      ensures PriceOutcome(net, fareKeys, lineIds, order, keyOrder, pricing, start, dest, r, q, path, ws)
    {
      q, path, ws := SearchThrew, [], [];
      if start.None? || dest.None? || start.value == "" || dest.value == "" {
        return Some(0), q, path, ws;
      }
      var s, d := start.value, dest.value;
      if s == d {
        return Some(0), q, path, ws;
      }
      var key := CacheKey(s, d);
      if key in cache {
        return Some(cache[key]), q, path, ws;
      }
      var quote;
      quote, path, ws := QuotePrice(net, fareKeys, lineIds, order, pricing, s, d);
      q := quote;
      assert old(Quoted(net, fareKeys, lineIds, order, pricing, s, d, q, path, ws));
      match quote
      case SearchThrew =>
        r := None;
      case DistanceQuote(p) =>
        r := Some(p);
      case TableQuote(p) =>
        ghost var kept := if |cache| >= CacheSize then Evicted(cache, keyOrder) else cache;
        if |cache| >= CacheSize {
          EvictedSize(cache, keyOrder);
          Evict(keyOrder);
        }
        assert cache == kept && |kept| < CacheSize;
        cache := cache[key := p];
        r := Some(pricing.discount(p));
    }

    /**
     * calculateAndValidatePrice: calculatePrice's answer paired with the
     * coin service's verdict on it; calculatePrice's exception passes on.
     */
    method CalculateAndValidatePrice(net: Registry, fareKeys: seq<string>, lineIds: seq<string>, order: seq<string>,
                                     keyOrder: seq<string>, pricing: Pricing, start: Option<string>, dest: Option<string>,
                                     hasSufficientCoins: int -> bool)
      returns (r: Option<PriceResult>, ghost q: Quote, ghost path: seq<string>, ghost ws: seq<int>)
      requires Valid() && net.Valid()
      requires Enumerates(fareKeys, net.fares) && Enumerates(lineIds, net.lines) && Enumerates(order, net.stations)
      requires Enumerates(keyOrder, cache)
      modifies this
      ensures Valid()
      ensures r.Some? ==> r.value.canAfford == hasSufficientCoins(r.value.price)
      ensures PriceOutcome(net, fareKeys, lineIds, order, keyOrder, pricing, start, dest,
                           if r.Some? then Some(r.value.price) else None, q, path, ws)
    {
      var price;
      price, q, path, ws := CalculatePrice(net, fareKeys, lineIds, order, keyOrder, pricing, start, dest);
      if price.None? {
        return None, q, path, ws;
      }
      r := Some(PriceResult(price.value, hasSufficientCoins(price.value)));
    }

    /** clearCache. */
    method ClearCache()
      modifies this
      ensures cache == map[] && Valid()
    {
      cache := map[];
    }

    /** getCacheStats: the number of cached entries in a sentence. */
    function CacheStats(): (msg: string)
      reads this
      ensures |msg| > |"Price cache: "| + |" entries"|
    {
      "Price cache: " + NatToString(|cache|) + " entries"
    }
  }

  /** The number in the cache report reads back as the number of cached entries. */
  lemma CacheStatsCount(pc: PriceCalculator)
    ensures var msg := pc.CacheStats(); var n := |msg| - |" entries"|;
      && msg[..|"Price cache: "|] == "Price cache: " && msg[n..] == " entries"
      && AllDigits(msg[|"Price cache: "|..n]) && DigitsValue(msg[|"Price cache: "|..n]) == |pc.cache|
  {
    var msg := pc.CacheStats();
    NatToStringValue(|pc.cache|);
    assert msg[|"Price cache: "|..|msg| - |" entries"|] == NatToString(|pc.cache|);
  }

  // ---------------- generateBasicFares ----------------

  /** One more visited pair: covered once it has a fare or its fare is invalid, while fares only grow. */
  lemma CoveredStep(fares: map<string, Fare>, fares': map<string, Fare>, order: seq<string>, table: seq<seq<int>>,
                    i: nat, j: nat)
    requires IsTable(table, order) && i < j < |order|
    requires PairsCovered(fares, order, table, i, j) && fares.Keys <= fares'.Keys
    requires FareKey(order[i], order[j]) in fares' || !PairFare(order, table, i, j).IsValid()
    ensures PairsCovered(fares', order, table, i, j + 1)
  {
  }

  /** Adding the generated fare of one pair under its free key keeps the fares an extension of f0. */
  lemma ExtendsStep(f0: map<string, Fare>, fares: map<string, Fare>, order: seq<string>, table: seq<seq<int>>,
                    i: nat, j: nat)
    requires IsTable(table, order) && i < j < |order|
    requires Extends(f0, fares, order, table)
    requires FareKey(order[i], order[j]) !in fares
    ensures Extends(f0, fares[FareKey(order[i], order[j]) := NormalizeFare(PairFare(order, table, i, j))],
                    order, table)
  {
    var k := FareKey(order[i], order[j]);
    var fares' := fares[k := NormalizeFare(PairFare(order, table, i, j))];
    forall k' | k' in fares' && k' !in f0
      ensures exists p, q :: 0 <= p < q < |order| && k' == FareKey(order[p], order[q])
                             && fares'[k'] == NormalizeFare(PairFare(order, table, p, q))
    {
      if k' == k {
        assert 0 <= i < j < |order| && k' == FareKey(order[i], order[j]);
      } else {
        var p, q :| 0 <= p < q < |order| && k' == FareKey(order[p], order[q])
                    && fares[k'] == NormalizeFare(PairFare(order, table, p, q));
      }
    }
  }

  /** Having visited every pair of row i is having visited every pair before row i + 1. */
  lemma CoveredRow(fares: map<string, Fare>, order: seq<string>, table: seq<seq<int>>, i: nat)
    requires IsTable(table, order) && i < |order|
    requires PairsCovered(fares, order, table, i, |order|)
    ensures PairsCovered(fares, order, table, i + 1, i + 2)
  {
  }

  /**
   * One step of generateBasicFares's nested loop: the stations at positions
   * i and j get their distance fare, added in both directions, unless they
   * already have a fare.
   */
  method FareForPair(net: Registry, order: seq<string>, pricing: Pricing, i: nat, j: nat,
                     ghost table: seq<seq<int>>, ghost f0: map<string, Fare>, count: nat)
    returns (count': nat)
    requires net.Valid() && Enumerates(order, net.stations) && i < j < |order|
    requires table == PriceTable(net.stations, order, pricing)
    requires PairsCovered(net.fares, order, table, i, j) && Extends(f0, net.fares, order, table)
    requires |net.fares| == |f0| + count
    modifies net
    ensures net.Valid() && net.stations == old(net.stations) && net.lines == old(net.lines)
    ensures PairsCovered(net.fares, order, table, i, j + 1) && Extends(f0, net.fares, order, table)
    ensures |net.fares| == |f0| + count'
  {
    count' := count;
    var s1, s2 := net.stations[order[i]], net.stations[order[j]];
    LookupFareSymmetric(net.fares, s1.code, s2.code);
    if !net.HasFare(s1.code, s2.code) {
      var price := PriceByDistance(net, order, pricing, s1.name, s2.name);
      var fare := Fare(s1.code, s2.code, price);
      assert fare == PairFare(order, table, i, j);
      var added := net.AddBidirectionalFare(fare);
      if added {
        ExtendsStep(f0, old(net.fares), order, table, i, j);
        count' := count' + 1;
      }
    }
    CoveredStep(old(net.fares), net.fares, order, table, i, j);
  }

  /** The inner loop of generateBasicFares for the station at position i. */
  method FaresFrom(net: Registry, order: seq<string>, pricing: Pricing, i: nat,
                   ghost table: seq<seq<int>>, ghost f0: map<string, Fare>, count: nat)
    returns (count': nat)
    requires net.Valid() && Enumerates(order, net.stations) && i < |order|
    requires table == PriceTable(net.stations, order, pricing)
    requires PairsCovered(net.fares, order, table, i, i + 1) && Extends(f0, net.fares, order, table)
    requires |net.fares| == |f0| + count
    modifies net
    ensures net.Valid() && net.stations == old(net.stations) && net.lines == old(net.lines)
    ensures PairsCovered(net.fares, order, table, i + 1, i + 2) && Extends(f0, net.fares, order, table)
    ensures |net.fares| == |f0| + count'
  {
    count' := count;
    for j := i + 1 to |order|
      invariant net.Valid() && net.stations == old(net.stations) && net.lines == old(net.lines)
      invariant PairsCovered(net.fares, order, table, i, j) && Extends(f0, net.fares, order, table)
      invariant |net.fares| == |f0| + count'
    {
      count' := FareForPair(net, order, pricing, i, j, table, f0, count');
    }
    CoveredRow(net.fares, order, table, i);
  }

  /**
   * generateBasicFares: with fewer than two stations, nothing; otherwise
   * every pair of stations (in iteration order) without a fare gets one
   * priced by the distance between their names. True exactly when a fare
   * was added. Existing fares, stations and lines are kept.
   */
  method GenerateBasicFares(net: Registry, order: seq<string>, pricing: Pricing) returns (ok: bool)
    requires net.Valid() && Enumerates(order, net.stations)
    modifies net
    ensures net.Valid() && net.stations == old(net.stations) && net.lines == old(net.lines)
    ensures |order| < 2 ==> net.fares == old(net.fares)
    ensures ok <==> |net.fares| > |old(net.fares)|
    ensures Extends(old(net.fares), net.fares, order, PriceTable(net.stations, order, pricing))
    ensures |order| >= 2 ==> PairsCovered(net.fares, order, PriceTable(net.stations, order, pricing), |order|, 0)
  {
    if |order| < 2 {
      return false;
    }
    ghost var table := PriceTable(net.stations, order, pricing);
    var count := 0;
    for i := 0 to |order|
      invariant net.Valid() && net.stations == old(net.stations) && net.lines == old(net.lines)
      invariant PairsCovered(net.fares, order, table, i, i + 1)
      invariant Extends(old(net.fares), net.fares, order, table)
      invariant |net.fares| == |old(net.fares)| + count
    {
      count := FaresFrom(net, order, pricing, i, table, old(net.fares), count);
    }
    ok := count > 0;
  }
}
