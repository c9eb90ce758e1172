/**
 * The graph the cheapest-route search runs over and the invariants of its
 * state (manager/RouteCalculator.java): queue entries, walks and their
 * cost, the distance table, the predecessor tree, the settled stations and
 * the priority queue. The search itself and its proofs are in RouteCalc.
 */
module SearchState {
  import opened Wrappers
  import opened Text
  import opened Network
  import opened RouteGraph

  // ---------------- the graph and its walks ----------------

  /** A queue entry: a station, the distance it was queued with, and the line it was reached by. */
  datatype Node = Node(station: string, distance: int, line: Option<string>)

  type Graph = (string, Option<string>) -> seq<Neighbor>

  /** The hops out of a code, ignoring line labels. */
  function Adj(nb: Graph, u: string): seq<Arc>
  {
    Strip(nb(u, None))
  }

  /** The line labels do not change the hops, and every hop costs something. */
  ghost predicate SearchGraph(nb: Graph)
  {
    (forall u, c :: Strip(nb(u, c)) == Adj(nb, u))
    && (forall u, c, i :: 0 <= i < |nb(u, c)| ==> nb(u, c)[i].price > 0)
  }

  /** The sum of the hop prices. */
  function Cost(ws: seq<int>): int
  {
    if ws == [] then 0 else ws[0] + Cost(ws[1..])
  }

  /** p is a walk in the graph, ws[i] the price of a hop from p[i] to p[i + 1]. */
  ghost predicate IsWalk(nb: Graph, p: seq<string>, ws: seq<int>)
  {
    |p| == |ws| + 1 && forall i :: 0 <= i < |ws| ==> Arc(p[i + 1], ws[i]) in Adj(nb, p[i])
  }

  /** No walk from start to end costs less than d. */
  ghost predicate NoCheaper(nb: Graph, start: string, end: string, d: int)
  {
    forall p, ws :: IsWalk(nb, p, ws) && p[0] == start && p[|p| - 1] == end ==> d <= Cost(ws)
  }

  // ---------------- the search state ----------------

  /** Every distance lies in [0, MAX_VALUE] and the start's is 0. */
  ghost predicate Distances(start: string, dist: map<string, int>)
  {
    start in dist && dist[start] == 0 && forall k :: k in dist ==> 0 <= dist[k] <= IntMax
  }

  /**
   * The predecessor map: the start has none, every other reached station
   * has one, a settled station, whose distance plus the recorded hop price
   * is the station's distance.
   */
  ghost predicate Tree(nb: Graph, start: string, dist: map<string, int>, prev: map<string, string>,
                       via: map<string, int>, settled: set<string>)
  {
    start !in prev && Covered(start, dist, prev) && Linked(nb, dist, prev, via, settled)
  }

  /** Every reached station other than the start has a predecessor. */
  ghost predicate Covered(start: string, dist: map<string, int>, prev: map<string, string>)
  {
    forall v {:trigger v in prev} :: v in dist && v != start && dist[v] < IntMax ==> v in prev
  }

  /** Every predecessor is settled and accounts for the station's distance with a hop of the graph. */
  ghost predicate Linked(nb: Graph, dist: map<string, int>, prev: map<string, string>, via: map<string, int>, settled: set<string>)
  {
    forall v {:trigger v in prev} :: v in prev ==>
      (v in dist && v in via && prev[v] in settled && prev[v] in dist
       && dist[v] < IntMax && dist[v] == dist[prev[v]] + via[v] && Arc(v, via[v]) in Adj(nb, prev[v]))
  }

  /** Every recorded predecessor is a hop of the graph that accounts for the station's distance. */
  ghost predicate Links(nb: Graph, dist: map<string, int>, prev: map<string, string>, via: map<string, int>)
  {
    forall v :: v in prev ==>
      (v in dist && v in via && prev[v] in dist
       && dist[v] < IntMax && dist[v] == dist[prev[v]] + via[v] && Arc(v, via[v]) in Adj(nb, prev[v]))
  }

  /** Every hop out of a settled station leads to a known station, no further than the hop's price beyond it. */
  ghost predicate Closed(nb: Graph, dist: map<string, int>, settled: set<string>)
  {
    forall s :: s in settled ==> s in dist && ClosedAt(nb, dist, s)
  }

  /** Every settled station but u is closed. */
  ghost predicate ClosedExcept(nb: Graph, dist: map<string, int>, settled: set<string>, u: string)
  {
    forall s :: s in settled && s != u ==> s in dist && ClosedAt(nb, dist, s)
  }

  ghost predicate ClosedAt(nb: Graph, dist: map<string, int>, s: string)
    requires s in dist
  {
    forall a :: a in Adj(nb, s) ==> a.to in dist && dist[a.to] <= dist[s] + a.price
  }

  /** Some station's neighbour list names a code outside known: the search fails when it reaches that neighbour. */
  ghost predicate StrayArc(nb: Graph, known: set<string>)
  {
    exists u, a :: a in Adj(nb, u) && a.to !in known
  }

  /** Some queue entry is for station v at distance d. */
  predicate Queued(q: seq<Node>, v: string, d: int)
  {
    exists i :: 0 <= i < |q| && q[i].station == v && q[i].distance == d
  }

  /**
   * The queue: every entry is for a known station, no closer than its
   * current distance, below MAX_VALUE and at least floor; every reached
   * unsettled station has an entry with its current distance; every settled
   * station is within floor.
   */
  ghost predicate Queue(dist: map<string, int>, settled: set<string>, q: seq<Node>, floor: int)
  {
    (forall i :: 0 <= i < |q| ==> q[i].station in dist && dist[q[i].station] <= q[i].distance < IntMax && floor <= q[i].distance)
    && (forall v :: v in dist && v !in settled && dist[v] < IntMax ==> Queued(q, v, dist[v]))
    && (forall s :: s in settled ==> s in dist && dist[s] <= floor)
  }

  /** The pairs (station, d) with d below the station's distance: what lowering distances can still use up. */
  ghost function Budget(dist: map<string, int>): set<(string, int)>
  {
    set v, d | v in dist && 0 <= d < dist[v] :: (v, d)
  }
}
