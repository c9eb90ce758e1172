/**
 * The fare manager (manager/FareManager.java): a thin layer over the
 * registry's fare map, plus four operations of its own — generating base
 * fares along a line, pricing a path segment by segment, listing the
 * missing segments of every line, and summarising the fare table.
 */
module FareManager {
  import opened Wrappers
  import opened Text
  import opened FareData
  import opened LineData
  import opened Network

  // ---------------------------------------------------------------
  // Lookups and two-way edits
  // ---------------------------------------------------------------

  /** getFarePrice: the stored price for the pair, or 0 when there is none. */
  function FarePrice(fares: map<string, Fare>, a: string, b: string): int
  {
    var f := LookupFare(fares, a, b);
    if f.Some? then f.value.price else 0
  }

  /** hasBidirectionalFare: a fare is stored for (a, b) or for (b, a). */
  predicate HasBidirectionalFare(fares: map<string, Fare>, a: string, b: string)
  {
    LookupFare(fares, a, b).Some? || LookupFare(fares, b, a).Some?
  }

  /**
   * Both lookups read the same direction-free key, so the two-way test is
   * the one-way test, and the price does not depend on the direction.
   */
  lemma HasBidirectionalFareSpec(fares: map<string, Fare>, a: string, b: string)
    ensures HasBidirectionalFare(fares, a, b) <==> FareKey(a, b) in fares
    ensures HasBidirectionalFare(fares, a, b) <==> LookupFare(fares, a, b).Some?
    ensures FarePrice(fares, a, b) == FarePrice(fares, b, a)
    ensures HasBidirectionalFare(fares, a, b) ==> FarePrice(fares, a, b) == fares[FareKey(a, b)].price
  {
    LookupFareSymmetric(fares, a, b);
  }

  /**
   * Normalizing a fare and its reverse gives the same stored fare: both
   * are written with their codes in key order.
   */
  lemma NormalizeFareReverse(f: Fare)
    ensures NormalizeFare(f.Symmetric()) == NormalizeFare(f)
  {
    var r, s := NormalizeFare(f), NormalizeFare(f.Symmetric());
    if r != s {
      LexLeTotal(f.from, f.to);
      if LexLe(f.from, f.to) && LexLe(f.to, f.from) {
        LexLeAntisymmetric(f.from, f.to);
      }
    }
  }

  /**
   * removeBidirectionalFare: removes (a, b), then (b, a). Both name the
   * same key, so the second removal never finds anything; the result
   * reports whether the key was there.
   */
  method RemoveBidirectionalFare(net: Registry, a: string, b: string) returns (ok: bool)
    requires net.Valid()
    modifies net
    ensures net.Valid()
    ensures ok <==> FareKey(a, b) in old(net.fares)
    ensures net.fares == old(net.fares) - {FareKey(a, b)}
    ensures net.stations == old(net.stations) && net.lines == old(net.lines)
  {
    var removed1 := net.RemoveFare(a, b);
    var removed2 := net.RemoveFare(b, a);
    FareKeySymmetric(a, b);
    ok := removed1 || removed2;
  }

  /**
   * updateFare(from, to, price): refuses a pair with no stored fare, and
   * otherwise stores Fare(from, to, price) through the registry, which
   * refuses an invalid one.
   */
  method UpdateFarePrice(net: Registry, a: string, b: string, price: int) returns (ok: bool)
    requires net.Valid()
    modifies net
    ensures net.Valid()
    ensures ok <==> FareKey(a, b) in old(net.fares) && Fare(a, b, price).IsValid()
    ensures ok ==> net.fares == old(net.fares)[FareKey(a, b) := NormalizeFare(Fare(a, b, price))]
    ensures !ok ==> net.fares == old(net.fares)
    ensures net.stations == old(net.stations) && net.lines == old(net.lines)
  {
    LookupFareSymmetric(net.fares, a, b);
    var fare := net.GetFare(a, b);
    if fare.None? {
      return false;
    }
    ok := net.UpdateFare(Fare(a, b, price));
  }

  /**
   * updateBidirectionalFare: updates (a, b), then (b, a). Both write the
   * same key with the same normalized fare, so the outcome is that of one
   * update.
   */
  method UpdateBidirectionalFare(net: Registry, a: string, b: string, price: int) returns (ok: bool)
    requires net.Valid()
    modifies net
    ensures net.Valid()
    ensures ok <==> FareKey(a, b) in old(net.fares) && Fare(a, b, price).IsValid()
    ensures ok ==> net.fares == old(net.fares)[FareKey(a, b) := NormalizeFare(Fare(a, b, price))]
    ensures !ok ==> net.fares == old(net.fares)
    ensures net.stations == old(net.stations) && net.lines == old(net.lines)
  {
    var updated1 := UpdateFarePrice(net, a, b, price);
    FareKeySymmetric(a, b);
    NormalizeFareReverse(Fare(a, b, price));
    assert Fare(a, b, price).Symmetric() == Fare(b, a, price);
    var updated2 := UpdateFarePrice(net, b, a, price);
    ok := updated1 || updated2;
  }

  // ---------------------------------------------------------------
  // Generating base fares along a line
  // ---------------------------------------------------------------

  /**
   * One step of generateFaresForLine: nothing to do when the pair already
   * has a fare; otherwise addBidirectionalFare, whose failure is reported.
   */
  function GenerateStep(fares: map<string, Fare>, stations: set<string>, a: string, b: string, price: int): (map<string, Fare>, bool)
  {
    if HasBidirectionalFare(fares, a, b) then (fares, true)
    else if Fare(a, b, price).IsValid() && a in stations && b in stations then (fares[FareKey(a, b) := NormalizeFare(Fare(a, b, price))], true)
    else (fares, false)
  }

  /** The fares and the success flag after the first n consecutive pairs of codes. */
  function Generate(fares: map<string, Fare>, stations: set<string>, codes: seq<string>, price: int, n: nat): (map<string, Fare>, bool)
    requires n < |codes| || n == 0
  {
    if n == 0 then (fares, true)
    else
      var prev := Generate(fares, stations, codes, price, n - 1);
      var step := GenerateStep(prev.0, stations, codes[n - 1], codes[n], price);
      (step.0, prev.1 && step.1)
  }

  /**
   * Generation only adds: every fare already stored is kept as it was, and
   * every new one is the base price between the two codes of some pair.
   * When it reports success every pair of neighbours has a fare, and it
   * does report success when the price is positive and every code is a
   * registered, non-empty station code.
   */
  lemma {:induction false} GenerateSpec(fares: map<string, Fare>, stations: set<string>, codes: seq<string>, price: int, n: nat)
    requires n < |codes| || n == 0
    ensures var r := Generate(fares, stations, codes, price, n);
            (forall k :: k in fares ==> k in r.0 && r.0[k] == fares[k])
            && (forall k :: k in r.0 && k !in fares ==> r.0[k].price == price)
            && (r.1 ==> forall i :: 0 <= i < n ==> HasBidirectionalFare(r.0, codes[i], codes[i + 1]))
            && (price > 0 && (forall i :: 0 <= i <= n && i < |codes| ==> codes[i] in stations && codes[i] != "") ==> r.1)
  {
    if n > 0 {
      GenerateSpec(fares, stations, codes, price, n - 1);
      var prev := Generate(fares, stations, codes, price, n - 1);
      var a, b := codes[n - 1], codes[n];
      HasBidirectionalFareSpec(prev.0, a, b);
      var step := GenerateStep(prev.0, stations, a, b, price);
      HasBidirectionalFareSpec(step.0, a, b);
      forall i | 0 <= i < n - 1 && HasBidirectionalFare(prev.0, codes[i], codes[i + 1])
        ensures HasBidirectionalFare(step.0, codes[i], codes[i + 1])
      {
        HasBidirectionalFareSpec(prev.0, codes[i], codes[i + 1]);
        HasBidirectionalFareSpec(step.0, codes[i], codes[i + 1]);
      }
    }
  }

  /**
   * generateFaresForLine: fails for an unknown line or one with fewer than
   * two stations; otherwise walks the consecutive pairs, adding the base
   * price where no fare exists, and fails if any addition failed (the
   * rest are still tried).
   */
  method GenerateFaresForLine(net: Registry, lineId: string, basePrice: int) returns (ok: bool)
    requires net.Valid()
    modifies net
    ensures net.Valid()
    ensures net.stations == old(net.stations) && net.lines == old(net.lines)
    ensures lineId !in old(net.lines) || |old(net.lines[lineId].stationCodes)| < 2 ==> !ok && net.fares == old(net.fares)
    ensures lineId in old(net.lines) && |old(net.lines[lineId].stationCodes)| >= 2 ==>
              var codes := old(net.lines[lineId].stationCodes);
              (net.fares, ok) == Generate(old(net.fares), old(net.stations).Keys, codes, basePrice, |codes| - 1)
  {
    var line := net.GetLine(lineId);
    if line.None? || !line.value.IsValid() {
      return false;
    }
    var stations := line.value.stationCodes;
    ghost var fares0 := net.fares;
    ghost var keys := net.stations.Keys;
    ok := true;
    var i := 0;
    while i < |stations| - 1
      invariant 0 <= i <= |stations| - 1
      invariant net.Valid()
      invariant net.stations == old(net.stations) && net.lines == old(net.lines)
      invariant (net.fares, ok) == Generate(fares0, keys, stations, basePrice, i)
    {
      var from := stations[i];
      var to := stations[i + 1];
      HasBidirectionalFareSpec(net.fares, from, to);
      if !net.HasFare(from, to) && !net.HasFare(to, from) {
        var added := net.AddBidirectionalFare(Fare(from, to, basePrice));
        if !added {
          ok := false;
        }
      }
      i := i + 1;
    }
  }

  // ---------------------------------------------------------------
  // Path prices
  // ---------------------------------------------------------------

  /**
   * The price of the first n segments of a path: -1 as soon as one has no
   * positive price, else their sum.
   */
  function PathFareUpTo(fares: map<string, Fare>, path: seq<string>, n: nat): int
    requires n < |path| || n == 0
  {
    if n == 0 then 0
    else
      var before := PathFareUpTo(fares, path, n - 1);
      var price := FarePrice(fares, path[n - 1], path[n]);
      if before < 0 || price <= 0 then -1 else before + price
  }

  /** calculatePathFare: 0 for a path of fewer than two stations, else the price of all its segments. */
  function PathFare(fares: map<string, Fare>, path: seq<string>): int
  {
    if |path| < 2 then 0 else PathFareUpTo(fares, path, |path| - 1)
  }

  /**
   * The path price is -1 exactly when some segment has no positive price;
   * otherwise it is at least one coin per segment, and it is never below -1.
   */
  lemma {:induction false} PathFareUpToSpec(fares: map<string, Fare>, path: seq<string>, n: nat)
    requires n < |path| || n == 0
    ensures PathFareUpTo(fares, path, n) >= -1
    ensures PathFareUpTo(fares, path, n) == -1 <==> exists i :: 0 <= i < n && FarePrice(fares, path[i], path[i + 1]) <= 0
    ensures PathFareUpTo(fares, path, n) >= 0 ==> PathFareUpTo(fares, path, n) >= n
  {
    if n > 0 {
      PathFareUpToSpec(fares, path, n - 1);
    }
  }

  /** A path's price is the price of its first part plus the price of the rest, when the whole is priced. */
  lemma {:induction false} PathFareSplit(fares: map<string, Fare>, path: seq<string>, m: nat, n: nat)
    requires 0 < m <= n < |path|
    requires PathFareUpTo(fares, path, n) >= 0
    ensures PathFareUpTo(fares, path, m) >= 0 && PathFareUpTo(fares, path[m..], n - m) >= 0
    ensures PathFareUpTo(fares, path, n) == PathFareUpTo(fares, path, m) + PathFareUpTo(fares, path[m..], n - m)
  {
    if n > m {
      PathFareSplit(fares, path, m, n - 1);
      assert path[m..][n - m - 1] == path[n - 1] && path[m..][n - m] == path[n];
    }
  }

  /**
   * calculatePathFare: 0 for a path of fewer than two stations; otherwise
   * adds the segment prices in order and gives -1 at the first segment
   * without a positive price.
   */
  method CalculatePathFare(net: Registry, path: seq<string>) returns (total: int)
    ensures total == PathFare(net.fares, path)
  {
    if |path| < 2 {
      return 0;
    }
    total := 0;
    var i := 0;
    while i < |path| - 1
      invariant 0 <= i <= |path| - 1
      invariant total == PathFareUpTo(net.fares, path, i) && total >= 0
    {
      var price := FarePrice(net.fares, path[i], path[i + 1]);
      if price <= 0 {
        PathFareStuck(net.fares, path, i + 1);
        return -1;
      }
      total := total + price;
      i := i + 1;
    }
  }

  /** Once a prefix is unpriced, every longer prefix is too. */
  lemma {:induction false} PathFareStuck(fares: map<string, Fare>, path: seq<string>, n: nat)
    requires 0 < n < |path| && PathFareUpTo(fares, path, n) == -1
    ensures PathFareUpTo(fares, path, |path| - 1) == -1
    decreases |path| - n
  {
    if n < |path| - 1 {
      PathFareStuck(fares, path, n + 1);
    }
  }

  // ---------------------------------------------------------------
  // Completeness check
  // ---------------------------------------------------------------

  /** One missing segment of a line (the source formats it as a message). */
  datatype Incomplete = Incomplete(lineId: string, from: string, to: string)

  /** The consecutive pairs among the first n of a line's codes that have no fare in either direction. */
  function PairIssues(fares: map<string, Fare>, id: string, codes: seq<string>, n: nat): seq<Incomplete>
    requires n < |codes| || n == 0
  {
    if n == 0 then []
    else
      PairIssues(fares, id, codes, n - 1)
      + (if HasBidirectionalFare(fares, codes[n - 1], codes[n]) then [] else [Incomplete(id, codes[n - 1], codes[n])])
  }

  /** The pairs checked for one line: all of them. */
  function LinePairs(codes: seq<string>): nat
  {
    if |codes| < 2 then 0 else |codes| - 1
  }

  /** A line as the check reads it. */
  datatype LineCodes = LineCodes(id: string, codes: seq<string>)

  /** The lines at the moment they are read, in the registry's iteration order. */
  function ReadLines(order: seq<Line>): (r: seq<LineCodes>)
    reads order
    ensures |r| == |order|
    ensures forall j :: 0 <= j < |order| ==> r[j] == LineCodes(order[j].id, order[j].stationCodes)
  {
    if order == [] then [] else ReadLines(order[..|order| - 1]) + [LineCodes(order[|order| - 1].id, order[|order| - 1].stationCodes)]
  }

  /** validateFareCompleteness' result: every line's missing pairs, line by line. */
  function CompletenessIssues(fares: map<string, Fare>, ls: seq<LineCodes>): seq<Incomplete>
  {
    if ls == [] then []
    else
      var l := ls[|ls| - 1];
      CompletenessIssues(fares, ls[..|ls| - 1]) + PairIssues(fares, l.id, l.codes, LinePairs(l.codes))
  }

  /** Pair i of line l is missing a fare, and x reports it. */
  predicate Reports(fares: map<string, Fare>, l: LineCodes, i: int, x: Incomplete)
  {
    0 <= i < |l.codes| - 1 && l.id == x.lineId && l.codes[i] == x.from && l.codes[i + 1] == x.to
    && !HasBidirectionalFare(fares, x.from, x.to)
  }

  /** An issue is reported for a line exactly when one of its first n pairs lacks a fare. */
  lemma {:induction false} PairIssuesSpec(fares: map<string, Fare>, id: string, codes: seq<string>, n: nat, x: Incomplete)
    requires n < |codes| || n == 0
    ensures x in PairIssues(fares, id, codes, n) <==> exists i :: 0 <= i < n && Reports(fares, LineCodes(id, codes), i, x)
  {
    if n > 0 {
      PairIssuesSpec(fares, id, codes, n - 1, x);
      var l := LineCodes(id, codes);
      if x in PairIssues(fares, id, codes, n) && x !in PairIssues(fares, id, codes, n - 1) {
        assert Reports(fares, l, n - 1, x);
      }
      if exists i :: 0 <= i < n && Reports(fares, l, i, x) {
        var i :| 0 <= i < n && Reports(fares, l, i, x);
        if i == n - 1 {
          assert x == Incomplete(id, codes[n - 1], codes[n]);
        }
      }
    }
  }

  /**
   * The check reports a pair exactly when it is a consecutive pair of some
   * line that has no fare in either direction, tagged with that line's id.
   */
  lemma {:induction false} CompletenessIssuesSpec(fares: map<string, Fare>, ls: seq<LineCodes>, x: Incomplete)
    ensures x in CompletenessIssues(fares, ls) <==> exists j, i :: 0 <= j < |ls| && Reports(fares, ls[j], i, x)
  {
    if ls != [] {
      var init, l := ls[..|ls| - 1], ls[|ls| - 1];
      CompletenessIssuesSpec(fares, init, x);
      PairIssuesSpec(fares, l.id, l.codes, LinePairs(l.codes), x);
      if x in CompletenessIssues(fares, init) {
        var j, i :| 0 <= j < |init| && Reports(fares, init[j], i, x);
        assert ls[j] == init[j];
      } else if x in PairIssues(fares, l.id, l.codes, LinePairs(l.codes)) {
        var i :| 0 <= i < LinePairs(l.codes) && Reports(fares, LineCodes(l.id, l.codes), i, x);
        assert Reports(fares, ls[|ls| - 1], i, x);
      } else {
        forall j, i | 0 <= j < |ls| ensures !Reports(fares, ls[j], i, x) {
          if j < |init| {
            assert ls[j] == init[j];
          } else {
            assert ls[j] == LineCodes(l.id, l.codes);
          }
        }
      }
    }
  }

  /** The pairs of one line, checked in order. */
  method CheckLine(net: Registry, id: string, codes: seq<string>) returns (issues: seq<Incomplete>)
    ensures issues == PairIssues(net.fares, id, codes, LinePairs(codes))
  {
    issues := [];
    var i := 0;
    while i < |codes| - 1
      invariant 0 <= i <= LinePairs(codes)
      invariant issues == PairIssues(net.fares, id, codes, i)
    {
      var from := codes[i];
      var to := codes[i + 1];
      if !(net.HasFare(from, to) || net.HasFare(to, from)) {
        issues := issues + [Incomplete(id, from, to)];
      }
      i := i + 1;
    }
  }

  /** validateFareCompleteness: every line in the registry's iteration order. */
  method ValidateFareCompleteness(net: Registry, order: seq<Line>) returns (issues: seq<Incomplete>)
    ensures issues == CompletenessIssues(net.fares, ReadLines(order))
  {
    ghost var ls := ReadLines(order);
    issues := [];
    var j := 0;
    while j < |order|
      invariant 0 <= j <= |order|
      invariant issues == CompletenessIssues(net.fares, ls[..j])
    {
      var more := CheckLine(net, order[j].id, order[j].stationCodes);
      assert ls[..j + 1][..j] == ls[..j];
      issues := issues + more;
      j := j + 1;
    }
    assert ls[..j] == ls;
  }

  // ---------------------------------------------------------------
  // Statistics
  // ---------------------------------------------------------------

  /** getFareStats' figures; the source formats them into a message. */
  datatype FareStats = EmptyTable | Stats(segments: nat, minPrice: int, maxPrice: int, avgPrice: int)

  function SumPrices(fs: seq<Fare>): int
  {
    if fs == [] then 0 else SumPrices(fs[..|fs| - 1]) + fs[|fs| - 1].price
  }

  /** Math.min folded from Integer.MAX_VALUE. */
  function MinPrice(fs: seq<Fare>): int
  {
    if fs == [] then IntMax else var m := MinPrice(fs[..|fs| - 1]); if fs[|fs| - 1].price < m then fs[|fs| - 1].price else m
  }

  /** Math.max folded from 0. */
  function MaxPrice(fs: seq<Fare>): int
  {
    if fs == [] then 0 else var m := MaxPrice(fs[..|fs| - 1]); if fs[|fs| - 1].price > m then fs[|fs| - 1].price else m
  }

  /** The statistics of the fares in the order the registry yields them. */
  function Statistics(fs: seq<Fare>): FareStats
  {
    if fs == [] then EmptyTable else Stats(|fs|, MinPrice(fs), MaxPrice(fs), JavaDiv(SumPrices(fs), |fs|))
  }

  /**
   * The min fold is at most Integer.MAX_VALUE and at most every price; the
   * max fold is at least 0 and at least every price. Each is one of the
   * prices unless it is still its starting value.
   */
  lemma {:induction false} FoldsSpec(fs: seq<Fare>)
    ensures forall f :: f in fs ==> MinPrice(fs) <= f.price <= MaxPrice(fs)
    ensures MinPrice(fs) <= IntMax && MaxPrice(fs) >= 0
    ensures MinPrice(fs) == IntMax || exists f :: f in fs && f.price == MinPrice(fs)
    ensures MaxPrice(fs) == 0 || exists f :: f in fs && f.price == MaxPrice(fs)
  {
    if fs != [] {
      var init := fs[..|fs| - 1];
      FoldsSpec(init);
      assert forall f :: f in fs ==> f in init || f == fs[|fs| - 1];
      assert forall f :: f in init ==> f in fs;
    }
  }

  /** Prices between lo and hi add up to between count times lo and count times hi. */
  lemma {:induction false} SumPricesBounds(fs: seq<Fare>, lo: int, hi: int)
    requires forall f :: f in fs ==> lo <= f.price <= hi
    ensures |fs| * lo <= SumPrices(fs) <= |fs| * hi
  {
    if fs != [] {
      var init, last := fs[..|fs| - 1], fs[|fs| - 1];
      forall f | f in init ensures lo <= f.price <= hi {
        assert f in fs;
      }
      SumPricesBounds(init, lo, hi);
      assert last in fs;
      var c := |init|;
      assert (c + 1) * lo == c * lo + lo && (c + 1) * hi == c * hi + hi;
    }
  }

  /** Multiplying by a positive count keeps the order. */
  lemma MulMono(n: int, a: int, b: int)
    requires n > 0 && a <= b
    ensures n * a <= n * b
  {
    assert n * b - n * a == n * (b - a);
  }

  /** A quotient of a sum lying between n * lo and n * hi lies between lo and hi. */
  lemma DivBounds(s: int, n: int, lo: int, hi: int)
    requires n > 0 && n * lo <= s <= n * hi
    ensures lo <= s / n <= hi
  {
    var q, r := s / n, s % n;
    assert s == n * q + r && 0 <= r < n;
    assert n * (lo - 1) == n * lo - n && n * (hi + 1) == n * hi + n;
    if q < lo {
      MulMono(n, q, lo - 1);
      assert false;
    }
    if q > hi {
      MulMono(n, hi + 1, q);
      assert false;
    }
  }

  /**
   * For a table of valid fares (positive int prices), the statistics
   * report the true minimum and maximum, and the average lies between them.
   */
  lemma StatisticsSpec(fs: seq<Fare>)
    requires forall f :: f in fs ==> 0 < f.price <= IntMax
    ensures Statistics(fs).EmptyTable? <==> fs == []
    ensures fs != [] ==>
              var st := Statistics(fs);
              (exists f :: f in fs && f.price == st.minPrice) && (exists f :: f in fs && f.price == st.maxPrice)
              && (forall f :: f in fs ==> st.minPrice <= f.price <= st.maxPrice)
              && st.minPrice <= st.avgPrice <= st.maxPrice
  {
    if fs != [] {
      FoldsSpec(fs);
      assert fs[0] in fs;
      SumPricesBounds(fs, MinPrice(fs), MaxPrice(fs));
      DivBounds(SumPrices(fs), |fs|, MinPrice(fs), MaxPrice(fs));
    }
  }

  /**
   * getFareStats: counts the fares and folds min, max and sum over them in
   * one pass, reporting an empty table when there are none.
   */
  method GetFareStats(fs: seq<Fare>) returns (stats: FareStats)
    ensures stats == Statistics(fs)
  {
    var total := 0;
    var minPrice := IntMax;
    var maxPrice := 0;
    var i := 0;
    while i < |fs|
      invariant 0 <= i <= |fs|
      invariant total == SumPrices(fs[..i]) && minPrice == MinPrice(fs[..i]) && maxPrice == MaxPrice(fs[..i])
    {
      assert fs[..i + 1][..i] == fs[..i];
      var price := fs[i].price;
      total := total + price;
      minPrice := if price < minPrice then price else minPrice;
      maxPrice := if price > maxPrice then price else maxPrice;
      i := i + 1;
    }
    assert fs[..i] == fs;
    if |fs| == 0 {
      return EmptyTable;
    }
    stats := Stats(|fs|, minPrice, maxPrice, JavaDiv(total, |fs|));
  }
}
