/**
 * The cheapest-route search (manager/RouteCalculator.java): Dijkstra's
 * algorithm over the neighbour graph, with a priority queue of
 * (station, distance, line) nodes, a distance map initialised to
 * Integer.MAX_VALUE for every station, predecessor and line maps, an early
 * exit when the end is polled, and a backtracking pass that rebuilds the
 * path. The search is written once over any neighbour function whose hops
 * do not depend on the current line and all cost something; getNeighbors
 * is such a function whenever the registry's fares have positive prices.
 */
module RouteCalc {
  import opened Wrappers
  import opened Text
  import opened LineData
  import opened RouteData
  import opened Network
  import opened RouteGraph
  import opened SearchState

  /** How a search ends: no route (null), a route, or a NullPointerException. */
  datatype RouteResult = NoRoute | Found(route: Route) | NullPointer

  // ---------------- walks and their cost ----------------

  /** Every hop of the graph has a positive price. */
  lemma AdjPositive(nb: Graph, u: string, a: Arc)
    requires SearchGraph(nb) && a in Adj(nb, u)
    ensures a.price > 0
  {
    var ns := nb(u, None);
    var i :| 0 <= i < |Strip(ns)| && Strip(ns)[i] == a;
    assert ns[i].price > 0;
  }

  lemma {:induction false} CostSplit(ws: seq<int>, j: nat)
    requires j <= |ws|
    ensures Cost(ws) == Cost(ws[..j]) + Cost(ws[j..])
  {
    if j > 0 {
      CostSplit(ws[1..], j - 1);
      assert ws[1..][..j - 1] == ws[..j][1..];
      assert ws[1..][j - 1..] == ws[j..];
    }
  }

  lemma {:induction false} CostPositive(ws: seq<int>)
    requires forall i :: 0 <= i < |ws| ==> ws[i] > 0
    ensures Cost(ws) >= 0
    ensures ws != [] ==> Cost(ws) > 0
  {
    if ws != [] {
      CostPositive(ws[1..]);
    }
  }

  /** The prices along a walk are positive, so a walk costs at least what any prefix of it costs. */
  lemma WalkPrefixCheaper(nb: Graph, p: seq<string>, ws: seq<int>, j: nat)
    requires SearchGraph(nb) && IsWalk(nb, p, ws) && j <= |ws|
    ensures Cost(ws[..j]) <= Cost(ws)
  {
    CostSplit(ws, j);
    forall i | 0 <= i < |ws[j..]|
      ensures ws[j..][i] > 0
    {
      AdjPositive(nb, p[j + i], Arc(p[j + i + 1], ws[j + i]));
    }
    CostPositive(ws[j..]);
  }

  lemma BudgetShrinks(dist: map<string, int>, w: string, nd: int)
    requires w in dist && 0 <= nd < dist[w]
    ensures Budget(dist[w := nd]) < Budget(dist)
  {
    assert (w, nd) in Budget(dist);
    assert (w, nd) !in Budget(dist[w := nd]);
  }

  // ---------------- polling ----------------

  /** The first entry with the smallest distance: what poll() returns, taking ties in queue order. */
  function MinIndex(q: seq<Node>): (i: nat)
    requires q != []
    ensures i < |q| && forall j :: 0 <= j < |q| ==> q[i].distance <= q[j].distance
  {
    if |q| == 1 then 0
    else
      var k := MinIndex(q[..|q| - 1]);
      if q[|q| - 1].distance < q[k].distance then |q| - 1 else k
  }

  /** Removing one entry keeps every other (station, distance) pair. */
  lemma QueuedRemove(q: seq<Node>, i: nat, v: string, d: int)
    requires i < |q| && Queued(q, v, d) && (v, d) != (q[i].station, q[i].distance)
    ensures Queued(q[..i] + q[i + 1..], v, d)
  {
    var j :| 0 <= j < |q| && q[j].station == v && q[j].distance == d;
    var r := q[..i] + q[i + 1..];
    if j < i {
      assert r[j] == q[j];
    } else {
      assert r[j - 1] == q[j];
    }
  }

  /** Adding an entry keeps every pair and adds its own. */
  lemma QueuedAppend(q: seq<Node>, n: Node, v: string, d: int)
    requires Queued(q, v, d) || (v == n.station && d == n.distance)
    ensures Queued(q + [n], v, d)
  {
    if Queued(q, v, d) {
      var j :| 0 <= j < |q| && q[j].station == v && q[j].distance == d;
      assert (q + [n])[j] == q[j];
    } else {
      assert (q + [n])[|q|] == n;
    }
  }

  // ---------------- the lower bound ----------------

  /**
   * Along a walk from the start whose stations before index j are all
   * settled, the station at j is known and no further than the walk's cost
   * up to j.
   */
  lemma {:induction false} SettledPrefix(nb: Graph, start: string, dist: map<string, int>, settled: set<string>,
                                         p: seq<string>, ws: seq<int>, j: nat)
    requires Distances(start, dist) && Closed(nb, dist, settled)
    requires IsWalk(nb, p, ws) && p[0] == start && j < |p|
    requires forall i :: 0 <= i < j ==> p[i] in settled
    ensures p[j] in dist && dist[p[j]] <= Cost(ws[..j])
  {
    if j > 0 {
      SettledPrefix(nb, start, dist, settled, p, ws, j - 1);
      var s := p[j - 1];
      assert s in settled && ClosedAt(nb, dist, s);
      assert Arc(p[j], ws[j - 1]) in Adj(nb, s);
      CostSplit(ws[..j], j - 1);
      assert ws[..j][..j - 1] == ws[..j - 1];
      assert ws[..j][j - 1..] == [ws[j - 1]];
    }
  }

  /** The first station of a walk that is not settled, when its last one is not. */
  lemma FirstOutside(p: seq<string>, settled: set<string>) returns (j: nat)
    requires p != [] && p[|p| - 1] !in settled
    ensures j < |p| && p[j] !in settled && forall i :: 0 <= i < j ==> p[i] in settled
  {
    j := 0;
    while p[j] in settled
      invariant 0 <= j < |p| && forall i :: 0 <= i < j ==> p[i] in settled
      decreases |p| - j
    {
      j := j + 1;
    }
  }

  /**
   * The cut argument: a walk from the start to an unsettled station leaves
   * the settled set somewhere; where it does, the station is either
   * unreached (so the walk costs at least MAX_VALUE) or queued with a
   * distance no greater than the walk's cost so far. So a walk costs at
   * least any lower bound m of the queue, or MAX_VALUE.
   */
  lemma CutBound(nb: Graph, start: string, dist: map<string, int>, settled: set<string>, q: seq<Node>, floor: int,
                 m: int, p: seq<string>, ws: seq<int>)
    requires SearchGraph(nb) && Distances(start, dist) && Closed(nb, dist, settled) && Queue(dist, settled, q, floor)
    requires forall i :: 0 <= i < |q| ==> m <= q[i].distance
    requires IsWalk(nb, p, ws) && p[0] == start && p[|p| - 1] !in settled
    ensures m <= Cost(ws) || IntMax <= Cost(ws)
  {
    var j := FirstOutside(p, settled);
    SettledPrefix(nb, start, dist, settled, p, ws, j);
    WalkPrefixCheaper(nb, p, ws, j);
    var x := p[j];
    assert x !in settled && dist[x] <= Cost(ws);
    if dist[x] < IntMax {
      assert Queued(q, x, dist[x]);
      var i :| 0 <= i < |q| && q[i].station == x && q[i].distance == dist[x];
      assert m <= dist[x];
    }
  }

  // ---------------- exploreNeighbors ----------------

  /**
   * One step of exploreNeighbors, from the settled station u at distance
   * floor over a hop to w: when u's distance plus the price is strictly
   * smaller than w's, w gets the new distance, u as predecessor, the hop's
   * line when it has one, and a queue entry; otherwise nothing changes.
   */
  method Relax(ghost nb: Graph, start: string, u: string, w: string, price: int, line: Option<string>,
               dist0: map<string, int>, prev0: map<string, string>, prevLine0: map<string, string>, q0: seq<Node>,
               ghost via0: map<string, int>, ghost settled: set<string>, ghost floor: int)
    returns (dist: map<string, int>, prev: map<string, string>, prevLine: map<string, string>, q: seq<Node>,
             ghost via: map<string, int>)
    requires SearchGraph(nb) && Arc(w, price) in Adj(nb, u) && price > 0 && w in dist0
    requires u in settled && u in dist0 && dist0[u] == floor
    requires Distances(start, dist0) && Tree(nb, start, dist0, prev0, via0, settled)
    requires ClosedExcept(nb, dist0, settled, u)
    requires Queue(dist0, settled, q0, floor)
    ensures dist.Keys == dist0.Keys && Distances(start, dist) && Tree(nb, start, dist, prev, via, settled)
    ensures dist[u] == floor && dist[w] <= floor + price
    ensures ClosedExcept(nb, dist, settled, u)
    ensures Queue(dist, settled, q, floor)
    ensures forall v :: v in dist ==> dist[v] <= dist0[v]
    ensures floor + price < dist0[w] ==>
              (dist == dist0[w := floor + price] && prev == prev0[w := u]
               && prevLine == (if line.Some? then prevLine0[w := line.value] else prevLine0)
               && q == q0 + [Node(w, floor + price, line)] && Budget(dist) < Budget(dist0))
    ensures floor + price >= dist0[w] ==> dist == dist0 && prev == prev0 && prevLine == prevLine0 && q == q0
  {
    var newDistance := dist0[u] + price;
    if newDistance < dist0[w] {
      assert newDistance == floor + price;
      RelaxTree(nb, start, u, w, price, dist0, prev0, via0, settled, floor);
      RelaxQueue(start, u, w, price, line, dist0, q0, settled, floor);
      RelaxClosed(nb, u, w, price, dist0, settled, floor);
      BudgetShrinks(dist0, w, newDistance);
      LowerOne(dist0, w, newDistance, u);
      dist, prev, via := dist0[w := newDistance], prev0[w := u], via0[w := price];
      prevLine := if line.Some? then prevLine0[w := line.value] else prevLine0;
      q := q0 + [Node(w, newDistance, line)];
    } else {
      dist, prev, prevLine, q, via := dist0, prev0, prevLine0, q0, via0;
    }
  }

  /** Lowering the distance of a station other than the start to a non-negative value keeps the distance table well formed. */
  lemma RelaxDistances(start: string, dist: map<string, int>, w: string, nd: int)
    requires Distances(start, dist) && w in dist && w != start && 0 <= nd <= dist[w]
    ensures Distances(start, dist[w := nd])
  {
    var d := dist[w := nd];
    forall k | k in d
      ensures 0 <= d[k] <= IntMax
    {
      if k != w {
        assert d[k] == dist[k];
      }
    }
  }

  /** Lowering w's distance keeps the stations, lowers no other distance and leaves u's alone. */
  lemma LowerOne(dist: map<string, int>, w: string, nd: int, u: string)
    requires w in dist && nd < dist[w] && u in dist && u != w
    ensures var d := dist[w := nd]; d.Keys == dist.Keys && d[u] == dist[u] && d[w] == nd
    ensures forall v :: v in dist[w := nd] ==> dist[w := nd][v] <= dist[v]
  {
  }

  /** A strictly shorter hop into w keeps the predecessor tree: w is neither settled nor the start. */
  lemma RelaxTree(nb: Graph, start: string, u: string, w: string, price: int,
                  dist: map<string, int>, prev: map<string, string>, via: map<string, int>, settled: set<string>, floor: int)
    requires Arc(w, price) in Adj(nb, u) && price > 0 && w in dist && floor + price < dist[w]
    requires u in settled && u in dist && dist[u] == floor
    requires Distances(start, dist) && Tree(nb, start, dist, prev, via, settled)
    requires forall s :: s in settled ==> s in dist && dist[s] <= floor
    ensures w !in settled && w != start
    ensures Distances(start, dist[w := floor + price])
    ensures Tree(nb, start, dist[w := floor + price], prev[w := u], via[w := price], settled)
  {
    assert w !in settled && w != start;
    assert start !in prev[w := u];
    assert dist[w] <= IntMax;
    RelaxDistances(start, dist, w, floor + price);
    RelaxCover(start, dist, prev, u, w, floor + price);
    RelaxLinks(nb, dist, prev, via, settled, u, w, price, floor + price);
  }

  /** Every reached station other than the start still has a predecessor once w gets u as its own. */
  lemma RelaxCover(start: string, dist: map<string, int>, prev: map<string, string>, u: string, w: string, nd: int)
    requires Covered(start, dist, prev)
    ensures Covered(start, dist[w := nd], prev[w := u])
  {
    var d, p := dist[w := nd], prev[w := u];
    forall v | v in d && v != start && d[v] < IntMax
      ensures v in p
    {
      if v != w {
        assert dist[v] < IntMax;
      }
    }
  }

  /** Every recorded hop stays consistent once w is reached from the settled u over a hop of this price. */
  lemma RelaxLinks(nb: Graph, dist: map<string, int>, prev: map<string, string>, via: map<string, int>,
                   settled: set<string>, u: string, w: string, price: int, nd: int)
    requires Linked(nb, dist, prev, via, settled)
    requires w !in settled && u in settled && u in dist && nd == dist[u] + price && w in dist && nd < dist[w] <= IntMax
    requires Arc(w, price) in Adj(nb, u)
    ensures Linked(nb, dist[w := nd], prev[w := u], via[w := price], settled)
  {
    var d, p, c := dist[w := nd], prev[w := u], via[w := price];
    forall v | v in p
      ensures v in d && v in c && p[v] in settled && p[v] in d
      ensures d[v] < IntMax && d[v] == d[p[v]] + c[v] && Arc(v, c[v]) in Adj(nb, p[v])
    {
      if v != w {
        assert prev[v] in settled && prev[v] != w;
      }
    }
  }

  /** A strictly shorter hop into w keeps the queue invariant once w's new entry is appended. */
  lemma RelaxQueue(start: string, u: string, w: string, price: int, line: Option<string>,
                   dist: map<string, int>, q: seq<Node>, settled: set<string>, floor: int)
    requires price > 0 && w in dist && floor + price < dist[w]
    requires Distances(start, dist) && Queue(dist, settled, q, floor)
    ensures Queue(dist[w := floor + price], settled, q + [Node(w, floor + price, line)], floor)
  {
    var d := dist[w := floor + price];
    var n := Node(w, floor + price, line);
    forall v | v in d && v !in settled && d[v] < IntMax
      ensures Queued(q + [n], v, d[v])
    {
      if v != w {
        assert Queued(q, v, dist[v]);
      }
      QueuedAppend(q, n, v, d[v]);
    }
  }

  /** Lowering w's distance keeps every settled station other than u closed. */
  lemma RelaxClosed(nb: Graph, u: string, w: string, price: int, dist: map<string, int>, settled: set<string>, floor: int)
    requires w in dist && floor + price < dist[w] && w !in settled
    requires ClosedExcept(nb, dist, settled, u)
    ensures ClosedExcept(nb, dist[w := floor + price], settled, u)
  {
    forall s | s in settled && s != u
      ensures ClosedAt(nb, dist[w := floor + price], s)
    {
      assert ClosedAt(nb, dist, s);
    }
  }

  /**
   * exploreNeighbors for the settled station u at distance floor: relaxes
   * the hops in list order. A neighbour that is not a station makes
   * distances.get return null and the comparison throw.
   */
  method Explore(ghost nb: Graph, start: string, u: string, ns: seq<Neighbor>,
                 dist0: map<string, int>, prev0: map<string, string>, prevLine0: map<string, string>, q0: seq<Node>,
                 ghost via0: map<string, int>, ghost settled: set<string>, ghost floor: int)
    returns (crashed: bool, dist: map<string, int>, prev: map<string, string>, prevLine: map<string, string>, q: seq<Node>,
             ghost via: map<string, int>)
    requires SearchGraph(nb) && Strip(ns) == Adj(nb, u) && forall i :: 0 <= i < |ns| ==> ns[i].price > 0
    requires u in settled && u in dist0 && dist0[u] == floor
    requires Distances(start, dist0) && Tree(nb, start, dist0, prev0, via0, settled)
    requires ClosedExcept(nb, dist0, settled, u)
    requires Queue(dist0, settled, q0, floor)
    ensures !crashed ==> dist.Keys == dist0.Keys && Distances(start, dist) && Tree(nb, start, dist, prev, via, settled)
    ensures !crashed ==> Closed(nb, dist, settled) && Queue(dist, settled, q, floor)
    ensures !crashed ==> Budget(dist) < Budget(dist0) || (dist == dist0 && q == q0)
    ensures crashed ==> exists a :: a in Adj(nb, u) && a.to !in dist0
  {
    dist, prev, prevLine, q, via := dist0, prev0, prevLine0, q0, via0;
    crashed := false;
    var k := 0;
    while k < |ns|
      invariant 0 <= k <= |ns|
      invariant dist.Keys == dist0.Keys && Distances(start, dist) && Tree(nb, start, dist, prev, via, settled)
      invariant dist[u] == floor
      invariant ClosedExcept(nb, dist, settled, u)
      invariant forall j :: 0 <= j < k ==> ns[j].station in dist && dist[ns[j].station] <= floor + ns[j].price
      invariant Queue(dist, settled, q, floor)
      invariant Budget(dist) < Budget(dist0) || (dist == dist0 && q == q0)
    {
      assert Strip(ns)[k] == Arc(ns[k].station, ns[k].price);
      if ns[k].station !in dist {
        return true, dist, prev, prevLine, q, via;
      }
      ghost var d1 := dist;
      dist, prev, prevLine, q, via := Relax(nb, start, u, ns[k].station, ns[k].price, ns[k].line, dist, prev, prevLine, q, via, settled, floor);
      forall j | 0 <= j <= k
        ensures ns[j].station in dist && dist[ns[j].station] <= floor + ns[j].price
      {
        if j < k {
          assert dist[ns[j].station] <= d1[ns[j].station];
        }
      }
      k := k + 1;
    }
    forall a | a in Adj(nb, u)
      ensures a.to in dist && dist[a.to] <= dist[u] + a.price
    {
      var j :| 0 <= j < |Strip(ns)| && Strip(ns)[j] == a;
    }
  }

  // ---------------- the main loop ----------------

  /** Polling a stale entry (its distance above the station's) keeps the queue invariant. */
  lemma PollStale(dist: map<string, int>, settled: set<string>, q: seq<Node>, i: nat, floor: int)
    requires Queue(dist, settled, q, floor) && i < |q| && q[i].distance > dist[q[i].station]
    ensures Queue(dist, settled, q[..i] + q[i + 1..], floor)
  {
    var rest := q[..i] + q[i + 1..];
    forall v | v in dist && v !in settled && dist[v] < IntMax
      ensures Queued(rest, v, dist[v])
    {
      QueuedRemove(q, i, v, dist[v]);
    }
    assert forall j :: 0 <= j < |rest| ==> rest[j] in q;
  }

  /**
   * Polling the smallest entry, when it is current, settles its station:
   * the floor rises to its distance and the queue invariant holds for the
   * rest.
   */
  lemma PollSettle(dist: map<string, int>, settled: set<string>, q: seq<Node>, i: nat, floor: int)
    requires Queue(dist, settled, q, floor) && i < |q| && q[i].distance == dist[q[i].station]
    requires forall j :: 0 <= j < |q| ==> q[i].distance <= q[j].distance
    ensures Queue(dist, settled + {q[i].station}, q[..i] + q[i + 1..], q[i].distance)
  {
    var rest := q[..i] + q[i + 1..];
    forall v | v in dist && v !in settled + {q[i].station} && dist[v] < IntMax
      ensures Queued(rest, v, dist[v])
    {
      QueuedRemove(q, i, v, dist[v]);
    }
    assert forall j :: 0 <= j < |rest| ==> rest[j] in q;
  }

  /**
   * When the end is unsettled and its distance is at most a lower bound m
   * of the queue (the polled entry's distance, or MAX_VALUE for an empty
   * queue), no walk to it is cheaper than its distance.
   */
  lemma BoundAtPoll(nb: Graph, start: string, end: string, dist: map<string, int>, settled: set<string>,
                    q: seq<Node>, floor: int, m: int)
    requires SearchGraph(nb) && Distances(start, dist) && Closed(nb, dist, settled) && Queue(dist, settled, q, floor)
    requires end in dist && end !in settled && dist[end] <= m
    requires forall i :: 0 <= i < |q| ==> m <= q[i].distance
    ensures NoCheaper(nb, start, end, dist[end])
  {
    forall p, ws | IsWalk(nb, p, ws) && p[0] == start && p[|p| - 1] == end
      ensures dist[end] <= Cost(ws)
    {
      CutBound(nb, start, dist, settled, q, floor, m, p, ws);
    }
  }

  /** The starting state: only the start is reached, at 0, and queued; nothing is settled. */
  lemma InitialState(nb: Graph, stations: set<string>, start: string)
    ensures var dist := (map k | k in stations :: IntMax)[start := 0];
      && dist.Keys == stations + {start} && Distances(start, dist) && Tree(nb, start, dist, map[], map[], {})
      && Closed(nb, dist, {}) && Queue(dist, {}, [Node(start, 0, None)], 0)
  {
    var q := [Node(start, 0, None)];
    assert q[0].station == start && q[0].distance == 0;
    assert Queued(q, start, 0);
  }

  /** Settling one more station keeps the tree and leaves every other settled station closed. */
  lemma SettleKeeps(nb: Graph, start: string, dist: map<string, int>, prev: map<string, string>, via: map<string, int>,
                    settled: set<string>, u: string)
    requires Tree(nb, start, dist, prev, via, settled) && Closed(nb, dist, settled)
    ensures Tree(nb, start, dist, prev, via, settled + {u})
  {
  }

  /** What one turn of the main loop did: go on, stop at the end, or throw. */
  datatype Turn = GoOn | AtEnd | Threw

  /** The settling half of a turn: the polled entry is current, so its station is settled and its neighbours explored. */
  method SettleAndExplore(nb: Graph, start: string, end: string,
                          dist0: map<string, int>, prev0: map<string, string>, prevLine0: map<string, string>, q0: seq<Node>,
                          ghost via0: map<string, int>, ghost settled0: set<string>, ghost floor0: int, i: nat)
    returns (crashed: bool, dist: map<string, int>, prev: map<string, string>, prevLine: map<string, string>, q: seq<Node>,
             ghost via: map<string, int>, ghost settled: set<string>, ghost floor: int)
    requires SearchGraph(nb) && i < |q0| && forall j :: 0 <= j < |q0| ==> q0[i].distance <= q0[j].distance
    requires Distances(start, dist0) && Tree(nb, start, dist0, prev0, via0, settled0)
    requires Closed(nb, dist0, settled0) && Queue(dist0, settled0, q0, floor0) && end !in settled0
    requires q0[i].station != end && q0[i].distance == dist0[q0[i].station]
    ensures !crashed ==> dist.Keys == dist0.Keys && Distances(start, dist) && Tree(nb, start, dist, prev, via, settled)
    ensures !crashed ==> Closed(nb, dist, settled) && Queue(dist, settled, q, floor) && end !in settled
    ensures !crashed ==> Budget(dist) < Budget(dist0) || (dist == dist0 && |q| < |q0|)
    ensures crashed ==> exists u, a :: a in Adj(nb, u) && a.to !in dist0.Keys
  {
    var current := q0[i];
    PollSettle(dist0, settled0, q0, i, floor0);
    SettleKeeps(nb, start, dist0, prev0, via0, settled0, current.station);
    settled := settled0 + {current.station};
    assert end !in settled;
    floor := current.distance;
    forall s | s in settled && s != current.station
      ensures s in dist0 && ClosedAt(nb, dist0, s)
    {
      assert s in settled0;
    }
    assert ClosedExcept(nb, dist0, settled, current.station);
    var ns := nb(current.station, current.line);
    assert Strip(ns) == Adj(nb, current.station);
    assert forall j :: 0 <= j < |ns| ==> ns[j].price > 0;
    var rest := q0[..i] + q0[i + 1..];
    assert |rest| < |q0|;
    crashed, dist, prev, prevLine, q, via := Explore(nb, start, current.station, ns, dist0, prev0, prevLine0, rest, via0, settled, floor);
  }

  /**
   * One turn of findCheapestRoute's main loop: poll the closest entry; stop
   * if it is the end; skip it if it is stale; otherwise settle its station
   * and explore its neighbours.
   */
  method PollOnce(nb: Graph, stations: set<string>, start: string, end: string,
                  dist0: map<string, int>, prev0: map<string, string>, prevLine0: map<string, string>, q0: seq<Node>,
                  ghost via0: map<string, int>, ghost settled0: set<string>, ghost floor0: int)
    returns (turn: Turn, dist: map<string, int>, prev: map<string, string>, prevLine: map<string, string>, q: seq<Node>,
             ghost via: map<string, int>, ghost settled: set<string>, ghost floor: int)
    requires SearchGraph(nb) && q0 != []
    requires dist0.Keys == stations + {start} && Distances(start, dist0) && Tree(nb, start, dist0, prev0, via0, settled0)
    requires Closed(nb, dist0, settled0) && Queue(dist0, settled0, q0, floor0) && end !in settled0
    ensures turn != Threw ==> dist.Keys == stations + {start} && Distances(start, dist) && Tree(nb, start, dist, prev, via, settled)
    ensures turn == GoOn ==> Closed(nb, dist, settled) && Queue(dist, settled, q, floor) && end !in settled
    ensures turn == GoOn ==> Budget(dist) < Budget(dist0) || (dist == dist0 && |q| < |q0|)
    ensures turn == AtEnd && end in dist ==> NoCheaper(nb, start, end, dist[end])
    ensures turn == Threw ==> exists u, a :: a in Adj(nb, u) && a.to !in stations + {start}
  {
    dist, prev, prevLine, via, settled, floor := dist0, prev0, prevLine0, via0, settled0, floor0;
    var i := MinIndex(q0);
    var current := q0[i];
    q := q0[..i] + q0[i + 1..];
    if current.station == end {
      BoundAtPoll(nb, start, end, dist, settled, q0, floor, current.distance);
      return AtEnd, dist, prev, prevLine, q, via, settled, floor;
    }
    if current.distance > dist[current.station] {
      PollStale(dist, settled, q0, i, floor);
      return GoOn, dist, prev, prevLine, q, via, settled, floor;
    }
    var crashed;
    crashed, dist, prev, prevLine, q, via, settled, floor := SettleAndExplore(nb, start, end, dist0, prev0, prevLine0, q0, via0, settled0, floor0, i);
    turn := if crashed then Threw else GoOn;
  }

  /**
   * findCheapestRoute's search for start != end: distances MAX_VALUE for
   * every station and 0 for the start, the start queued, then poll the
   * closest entry until the queue is empty, stopping as soon as the end is
   * polled, skipping stale entries and exploring the others. When it does
   * not throw, the end's distance is no more than the cost of any walk to
   * it, and the predecessor map records, for every reached station, a hop
   * from a settled station that accounts for its distance.
   */
  method Search(nb: Graph, stations: set<string>, start: string, end: string)
    returns (crashed: bool, dist: map<string, int>, prev: map<string, string>, prevLine: map<string, string>,
             ghost via: map<string, int>, ghost settled: set<string>)
    requires SearchGraph(nb) && start != end
    ensures !crashed ==> dist.Keys == stations + {start} && Distances(start, dist) && Tree(nb, start, dist, prev, via, settled)
    ensures !crashed && end in dist ==> NoCheaper(nb, start, end, dist[end])
    ensures crashed ==> exists u, a :: a in Adj(nb, u) && a.to !in stations + {start}
  {
    dist := (map k | k in stations :: IntMax)[start := 0];
    prev, prevLine, via, settled := map[], map[], map[], {};
    var queue := [Node(start, 0, None)];
    ghost var floor := 0;
    InitialState(nb, stations, start);
    crashed := false;
    while queue != []
      invariant dist.Keys == stations + {start} && Distances(start, dist) && Tree(nb, start, dist, prev, via, settled)
      invariant Closed(nb, dist, settled) && Queue(dist, settled, queue, floor) && end !in settled
      decreases Budget(dist), |queue|
    {
      var turn;
      turn, dist, prev, prevLine, queue, via, settled, floor := PollOnce(nb, stations, start, end, dist, prev, prevLine, queue, via, settled, floor);
      if turn == AtEnd {
        return;
      }
      if turn == Threw {
        return true, dist, prev, prevLine, via, settled;
      }
    }
    if end in dist {
      BoundAtPoll(nb, start, end, dist, settled, queue, floor, IntMax);
    }
  }

  // ---------------- buildRoute ----------------

  /** The lines recorded for the stations of a path, in path order, skipping the stations with none. */
  function LinesOf(path: seq<string>, prevLine: map<string, string>): (r: seq<string>)
    ensures |r| <= |path|
  {
    if path == [] then [] else (if path[0] in prevLine then [prevLine[path[0]]] else []) + LinesOf(path[1..], prevLine)
  }

  /** path follows the predecessor map: each station's predecessor is the one before it, and the first has none. */
  predicate Chain(prev: map<string, string>, path: seq<string>)
  {
    path != [] && path[0] !in prev && forall i :: 0 < i < |path| ==> path[i] in prev && prev[path[i]] == path[i - 1]
  }

  /**
   * calculateTransferCount: 0 for at most one line, otherwise the number of
   * positions whose line differs from the line in force before it.
   */
  method CountTransfers(linePath: seq<string>) returns (transfers: int)
    ensures transfers == LineChanges(linePath)
  {
    if |linePath| <= 1 {
      return 0;
    }
    transfers := 0;
    var currentLine := linePath[0];
    var i := 1;
    while i < |linePath|
      invariant 1 <= i <= |linePath|
      invariant currentLine == linePath[i - 1]
      invariant transfers == ChangesUpTo(linePath, i)
    {
      if linePath[i] != currentLine {
        transfers := transfers + 1;
        currentLine := linePath[i];
      }
      i := i + 1;
    }
  }

  /** A line path never changes line more often than it has steps, and never when it keeps to one line. */
  lemma {:induction false} LineChangesBounds(linePath: seq<string>, n: nat)
    requires n <= |linePath|
    ensures n >= 1 ==> ChangesUpTo(linePath, n) <= n - 1
    ensures (forall i :: 0 <= i < n ==> linePath[i] == linePath[0]) ==> ChangesUpTo(linePath, n) == 0
    ensures n >= 2 && linePath[n - 1] != linePath[n - 2] ==> ChangesUpTo(linePath, n) >= 1
  {
    if n > 1 {
      LineChangesBounds(linePath, n - 1);
    }
  }

  /** Prepending a station to a walk with the hop into the old first station. */
  lemma WalkCons(nb: Graph, c: string, price: int, path: seq<string>, ws: seq<int>)
    requires IsWalk(nb, path, ws) && Arc(path[0], price) in Adj(nb, c)
    ensures IsWalk(nb, [c] + path, [price] + ws) && Cost([price] + ws) == price + Cost(ws)
  {
    var p, w := [c] + path, [price] + ws;
    assert w[1..] == ws;
    forall i | 0 <= i < |w|
      ensures Arc(p[i + 1], w[i]) in Adj(nb, p[i])
    {
      if i > 0 {
        assert p[i + 1] == path[i] && w[i] == ws[i - 1] && p[i] == path[i - 1];
      }
    }
  }

  /**
   * buildRoute's backtracking: from the end, put each station in front of
   * the path (and its recorded line, if any, in front of the line path),
   * then move to its predecessor, until a station has none. The distances
   * fall strictly along the way, so this stops; the walk read back costs
   * exactly the end's distance.
   */
  method Backtrack(ghost nb: Graph, start: string, end: string, dist: map<string, int>, prev: map<string, string>,
                   prevLine: map<string, string>, ghost via: map<string, int>)
    returns (path: seq<string>, lines: seq<string>, ghost ws: seq<int>)
    requires SearchGraph(nb) && Distances(start, dist) && Links(nb, dist, prev, via)
    requires end in dist && dist[end] < IntMax
    ensures Chain(prev, path) && path[|path| - 1] == end && path[0] in dist && dist[path[0]] < IntMax
    ensures lines == LinesOf(path, prevLine)
    ensures IsWalk(nb, path, ws) && Cost(ws) + dist[path[0]] == dist[end]
  {
    path, ws := [end], [];
    lines := if end in prevLine then [prevLine[end]] else [];
    assert LinesOf(path, prevLine) == lines by {
      assert path[1..] == [];
    }
    while path[0] in prev
      invariant path != [] && path[|path| - 1] == end && path[0] in dist && dist[path[0]] < IntMax
      invariant Follows(prev, path)
      invariant IsWalk(nb, path, ws) && Cost(ws) + dist[path[0]] == dist[end]
      invariant lines == LinesOf(path, prevLine)
      decreases dist[path[0]]
    {
      var c := prev[path[0]];
      BackStep(nb, dist, prev, via, end, path, ws);
      ws := [via[path[0]]] + ws;
      path := [c] + path;
      if c in prevLine {
        lines := [prevLine[c]] + lines;
      }
    }
    assert dist[path[0]] <= dist[end] by {
      CostPositiveWalk(nb, path, ws);
    }
  }

  /** Each station after the first has the one before it as predecessor. */
  predicate Follows(prev: map<string, string>, path: seq<string>)
  {
    forall i :: 0 < i < |path| ==> path[i] in prev && prev[path[i]] == path[i - 1]
  }

  /** One step back along the predecessor map keeps the walk and its cost, and lowers the distance. */
  lemma BackStep(nb: Graph, dist: map<string, int>, prev: map<string, string>, via: map<string, int>, end: string,
                 path: seq<string>, ws: seq<int>)
    requires SearchGraph(nb) && Links(nb, dist, prev, via)
    requires path != [] && path[0] in prev && Follows(prev, path)
    requires IsWalk(nb, path, ws) && end in dist && Cost(ws) + dist[path[0]] == dist[end]
    ensures var c := prev[path[0]];
      && c in dist && dist[c] < dist[path[0]] && path[0] in via
      && Follows(prev, [c] + path)
      && IsWalk(nb, [c] + path, [via[path[0]]] + ws) && Cost([via[path[0]]] + ws) + dist[c] == dist[end]
  {
    var v := path[0];
    var c := prev[v];
    AdjPositive(nb, c, Arc(v, via[v]));
    WalkCons(nb, c, via[v], path, ws);
    var p := [c] + path;
    forall i | 0 < i < |p|
      ensures p[i] in prev && prev[p[i]] == p[i - 1]
    {
      if i > 1 {
        assert p[i] == path[i - 1] && p[i - 1] == path[i - 2];
      }
    }
  }

  /** A walk costs nothing negative. */
  lemma CostPositiveWalk(nb: Graph, p: seq<string>, ws: seq<int>)
    requires SearchGraph(nb) && IsWalk(nb, p, ws)
    ensures Cost(ws) >= 0
  {
    WalkPrefixCheaper(nb, p, ws, 0);
  }

  /**
   * buildRoute: null when the end's distance is MAX_VALUE; otherwise the
   * path read back from the end through the predecessor map, the lines
   * recorded on the way, the end's distance as price and the transfers
   * counted from the lines. The second null case (the path not starting at
   * the start) cannot happen: the only reached station without a
   * predecessor is the start. An end that is not a station has no distance,
   * and reading it throws.
   */
  method BuildRoute(ghost nb: Graph, start: string, end: string, dist: map<string, int>, prev: map<string, string>,
                    prevLine: map<string, string>, ghost via: map<string, int>, ghost settled: set<string>)
    returns (r: RouteResult, ghost ws: seq<int>)
    requires SearchGraph(nb) && start != end && Distances(start, dist) && Tree(nb, start, dist, prev, via, settled)
    ensures end !in dist <==> r.NullPointer?
    ensures end in dist ==> (dist[end] == IntMax <==> r.NoRoute?)
    ensures r.Found? ==> fresh(r.route) && r.route.Valid() && r.route.IsValid()
    ensures r.Found? ==> var route := r.route;
              && route.startStation == start && route.endStation == end
              && Chain(prev, route.stationPath) && route.stationPath[0] == start && route.stationPath[|route.stationPath| - 1] == end
              && route.linePath == LinesOf(route.stationPath, prevLine)
              && route.totalPrice == dist[end] && route.transferCount == LineChanges(route.linePath)
              && IsWalk(nb, route.stationPath, ws) && Cost(ws) == dist[end]
  {
    if end !in dist {
      return NullPointer, [];
    }
    if dist[end] == IntMax {
      return NoRoute, [];
    }
    var path, lines;
    path, lines, ws := Backtrack(nb, start, end, dist, prev, prevLine, via);
    if path[0] != start {
      assert false;
      return NoRoute, ws;
    }
    var transfers := CountTransfers(lines);
    var route := new Route(start, end);
    route.SetStationPath(path);
    route.SetLinePath(lines);
    route.SetTotalPrice(dist[end]);
    route.SetTransferCount(transfers);
    r := Found(route);
  }

  /** createDirectRoute: the path [start, end], price 0, no transfers and no lines. */
  method CreateDirectRoute(start: string, end: string) returns (route: Route)
    ensures fresh(route) && route.Valid()
    ensures route.startStation == start && route.endStation == end
    ensures route.stationPath == [start, end] && route.linePath == []
    ensures route.totalPrice == 0 && route.transferCount == 0 && route.stationCount == 1
  {
    route := new Route(start, end);
    route.SetStationPath([start, end]);
    route.SetTotalPrice(0);
    route.SetTransferCount(0);
  }

  // ---------------- findCheapestRoute ----------------

  /** getNeighbors over a snapshot of the registry, as the search calls it. */
  function NeighborGraph(v: NetView, approx: (string, string) -> int): Graph
  {
    (u, c) => Neighbors(v, u, c, approx)
  }

  /** With positive stored prices, getNeighbors is a graph the search is correct for. */
  lemma NeighborGraphSearchable(v: NetView, approx: (string, string) -> int)
    requires FaresPositive(v.fares)
    ensures SearchGraph(NeighborGraph(v, approx))
  {
    var nb := NeighborGraph(v, approx);
    forall u, c
      ensures Strip(nb(u, c)) == Adj(nb, u)
      ensures forall i :: 0 <= i < |nb(u, c)| ==> nb(u, c)[i].price > 0
    {
      NeighborsSpec(v, u, c, approx);
    }
  }

  /**
   * findCheapestRoute: no route for an empty code; the direct route for
   * equal codes; otherwise Dijkstra's search and buildRoute. A route found
   * is a walk from the start to the end in the neighbour graph whose cost
   * is the route's price, and no walk between them costs less; no route
   * means no walk costs less than MAX_VALUE. An end that is not a station
   * always ends in a NullPointerException.
   */
  method FindCheapestRoute(net: Registry, fareKeys: seq<string>, lineIds: seq<string>, approx: (string, string) -> int,
                           start: string, end: string)
    returns (r: RouteResult, ghost ws: seq<int>)
    requires net.Valid() && Enumerates(fareKeys, net.fares) && Enumerates(lineIds, net.lines)
    ensures start == "" || end == "" ==> r.NoRoute?
    ensures start != "" && start == end ==>
              r.Found? && fresh(r.route) && r.route.stationPath == [start, end] && r.route.totalPrice == 0 && r.route.transferCount == 0
    ensures start != "" && end != "" && start != end ==>
              (end !in net.stations ==> r.NullPointer?)
              && (r.NullPointer? ==> end !in net.stations || StrayArc(NeighborGraph(View(net, fareKeys, lineIds), approx), net.stations.Keys + {start}))
    ensures r.Found? && start != end ==> var g, route := NeighborGraph(View(net, fareKeys, lineIds), approx), r.route;
              && fresh(route) && route.IsValid() && route.Valid()
              && route.startStation == start && route.endStation == end
              && IsWalk(g, route.stationPath, ws) && Cost(ws) == route.totalPrice
              && NoCheaper(g, start, end, route.totalPrice)
              && route.transferCount == LineChanges(route.linePath)
    ensures r.NoRoute? && start != "" && end != "" ==> NoCheaper(NeighborGraph(View(net, fareKeys, lineIds), approx), start, end, IntMax)
  {
    ws := [];
    if start == "" || end == "" {
      return NoRoute, ws;
    }
    if start == end {
      var route := CreateDirectRoute(start, end);
      return Found(route), ws;
    }
    var view := View(net, fareKeys, lineIds);
    assert view.stations == net.stations.Keys;
    r, ws := CheapestOnView(view, approx, start, end);
  }

  /** findCheapestRoute's search and route building, on a snapshot of the registry. */
  method CheapestOnView(view: NetView, approx: (string, string) -> int, start: string, end: string)
    returns (r: RouteResult, ghost ws: seq<int>)
    requires FaresPositive(view.fares) && start != end
    ensures end !in view.stations ==> r.NullPointer?
    ensures end in view.stations ==> !r.NullPointer? || StrayArc(NeighborGraph(view, approx), view.stations + {start})
    ensures r.Found? ==> var g, route := NeighborGraph(view, approx), r.route;
              && fresh(route) && route.IsValid() && route.Valid()
              && route.startStation == start && route.endStation == end
              && IsWalk(g, route.stationPath, ws) && Cost(ws) == route.totalPrice
              && NoCheaper(g, start, end, route.totalPrice)
              && route.transferCount == LineChanges(route.linePath)
    ensures r.NoRoute? ==> NoCheaper(NeighborGraph(view, approx), start, end, IntMax)
  {
    ws := [];
    var nb := NeighborGraph(view, approx);
    NeighborGraphSearchable(view, approx);
    var crashed, dist, prev, prevLine, via, settled := Search(nb, view.stations, start, end);
    if crashed {
      return NullPointer, ws;
    }
    r, ws := BuildRoute(nb, start, end, dist, prev, prevLine, via, settled);
  }

  /**
   * validateRoute: false for no route and for a path of fewer than two
   * stations; otherwise true exactly when every consecutive pair has a
   * stored fare.
   */
  method ValidateRoute(net: Registry, route: Option<Route>) returns (ok: bool)
    ensures ok <==> route.Some? && |route.value.stationPath| >= 2
                    && forall i :: 0 <= i < |route.value.stationPath| - 1 ==>
                         net.HasFare(route.value.stationPath[i], route.value.stationPath[i + 1])
  {
    if route.None? {
      return false;
    }
    var path := route.value.stationPath;
    if |path| < 2 {
      return false;
    }
    var i := 0;
    while i < |path| - 1
      invariant 0 <= i <= |path| - 1
      invariant forall j :: 0 <= j < i ==> net.HasFare(path[j], path[j + 1])
    {
      if !net.HasFare(path[i], path[i + 1]) {
        return false;
      }
      i := i + 1;
    }
    return true;
  }
}
