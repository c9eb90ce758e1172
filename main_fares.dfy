/**
 * The station-pair fare resolution of the web console's fare chart
 * (renderFareCharts in main.js): station identity by name, station-code
 * parsing, segment lookup, same-line sums, the transfer search through
 * groups of same-named stations, and the rule that combines them.
 *
 * Fares, stations and lines are the JSON snapshots the page received;
 * a missing field is Undefined, and a missing name is the empty string.
 */
module MainFares {
  import opened Wrappers
  import opened Text

  /** A JSON field as the browser sees it (prices are integers here). */
  datatype JsVal = Undefined | Null | Num(n: int) | Str(s: string)

  /** A fare record: endpoints, the two tier prices and the legacy single price. */
  datatype JsFare = JsFare(from: string, to: string, costRegular: JsVal, costExpress: JsVal, cost: JsVal)

  datatype JsStation = JsStation(code: string, name: string, enName: string)

  datatype JsLine = JsLine(id: string, color: string, stations: seq<string>)

  /** A station code split into its line prefix and its position number. */
  datatype ParsedCode = ParsedCode(prefix: string, num: int)

  function Min(x: int, y: int): int { if x <= y then x else y }
  function Max(x: int, y: int): int { if x <= y then y else x }

  // ---------------------------------------------------------------
  // Display identity
  // ---------------------------------------------------------------

  /**
   * The key that identifies a physical station: Chinese and English names
   * joined by '|', trimmed and lower-cased. It is never empty, so the
   * page's "skip stations without a key" guards never skip anything.
   */
  function NameKey(s: JsStation): (k: string)
    ensures '|' in k
    ensures s.name == "" && s.enName == "" ==> k == "|"
  {
    NameKeyHasBar(s);
    if s.name == "" && s.enName == "" then NameKeyOfNoNames(s); Lower(TrimJs(s.name + "|" + s.enName))
    else Lower(TrimJs(s.name + "|" + s.enName))
  }

  lemma NameKeyHasBar(s: JsStation)
    ensures '|' in Lower(TrimJs(s.name + "|" + s.enName))
  {
    var raw := s.name + "|" + s.enName;
    assert raw[|s.name|] == '|';
    TrimKeeps(raw, IsJsSpace, '|');
    LowerKeeps(TrimJs(raw), '|');
  }

  lemma NameKeyOfNoNames(s: JsStation)
    requires s.name == "" && s.enName == ""
    ensures Lower(TrimJs(s.name + "|" + s.enName)) == "|"
  {
    var raw := s.name + "|" + s.enName;
    assert raw == "|";
    assert !IsJsSpace('|');
    assert TrimJs("|") == "|";
    assert Lower("|")[0] == '|';
  }

  // ---------------------------------------------------------------
  // Numbers and tiers
  // ---------------------------------------------------------------

  /** Number(v) || 0: NaN, null, undefined and 0 all become 0. */
  function NumberOr0(v: JsVal): int
  {
    match v
    case Undefined => 0
    case Null => 0
    case Num(n) => n
    case Str(s) => JsNumberOr0(s)
  }

  /** x ?? y */
  function Coalesce(x: JsVal, y: JsVal): JsVal
  {
    if x.Undefined? || x.Null? then y else x
  }

  function TierField(f: JsFare, isRegular: bool): JsVal
  {
    if isRegular then f.costRegular else f.costExpress
  }

  /**
   * The price of a record for one tier: the tier field when it is set (a
   * number or a string, even one that reads as 0), else the legacy cost,
   * through Number(...) || 0.
   */
  function TierValue(f: JsFare, isRegular: bool): (r: int)
    ensures TierField(f, isRegular).Num? ==> r == TierField(f, isRegular).n
    ensures TierField(f, isRegular).Str? ==> r == JsNumberOr0(TierField(f, isRegular).s)
    ensures (TierField(f, isRegular).Undefined? || TierField(f, isRegular).Null?) ==> r == NumberOr0(f.cost)
  {
    NumberOr0(Coalesce(TierField(f, isRegular), f.cost))
  }

  // ---------------------------------------------------------------
  // Record lookup
  // ---------------------------------------------------------------

  predicate Matches(f: JsFare, from: string, to: string)
  {
    f.from == from && f.to == to
  }

  predicate MatchesEither(f: JsFare, a: string, b: string)
  {
    Matches(f, a, b) || Matches(f, b, a)
  }

  /** The index of the first record stored as from -> to, or |fares| if there is none. */
  function FareIndex(fares: seq<JsFare>, from: string, to: string): (k: nat)
    ensures k <= |fares|
    ensures k < |fares| ==> Matches(fares[k], from, to)
    ensures forall j :: 0 <= j < k ==> !Matches(fares[j], from, to)
  {
    if fares == [] then 0
    else if Matches(fares[0], from, to) then 0
    else 1 + FareIndex(fares[1..], from, to)
  }

  /** The index of the first record joining a and b in either direction, or |fares|. */
  function EitherIndex(fares: seq<JsFare>, a: string, b: string): (k: nat)
    ensures k <= |fares|
    ensures k < |fares| ==> MatchesEither(fares[k], a, b)
    ensures forall j :: 0 <= j < k ==> !MatchesEither(fares[j], a, b)
  {
    if fares == [] then 0
    else if MatchesEither(fares[0], a, b) then 0
    else 1 + EitherIndex(fares[1..], a, b)
  }

  lemma EitherIndexSymmetric(fares: seq<JsFare>, a: string, b: string)
    ensures EitherIndex(fares, a, b) == EitherIndex(fares, b, a)
  {
  }

  /**
   * segFare: the first record from -> to, else the first record to -> from,
   * priced for the tier; 0 when neither exists.
   */
  function SegFare(fares: seq<JsFare>, from: string, to: string, isRegular: bool): int
  {
    var k := FareIndex(fares, from, to);
    if k < |fares| then TierValue(fares[k], isRegular)
    else
      var k2 := FareIndex(fares, to, from);
      if k2 < |fares| then TierValue(fares[k2], isRegular) else 0
  }

  /** A non-zero segment price comes from a record joining the two codes, in one direction or the other. */
  lemma SegFareFromRecord(fares: seq<JsFare>, from: string, to: string, isRegular: bool)
    ensures (forall i :: 0 <= i < |fares| ==> !MatchesEither(fares[i], from, to)) ==> SegFare(fares, from, to, isRegular) == 0
    ensures SegFare(fares, from, to, isRegular) != 0 ==>
      exists i :: 0 <= i < |fares| && MatchesEither(fares[i], from, to) && TierValue(fares[i], isRegular) == SegFare(fares, from, to, isRegular)
  {
    var k := FareIndex(fares, from, to);
    if k == |fares| {
      var k2 := FareIndex(fares, to, from);
      if k2 < |fares| {
        assert MatchesEither(fares[k2], from, to);
      }
    } else {
      assert MatchesEither(fares[k], from, to);
    }
  }

  /** The record bestFareBetweenCodes consults directly, priced for the tier (0 if none). */
  function DirectFare(fares: seq<JsFare>, a: string, b: string, isRegular: bool): int
  {
    var k := EitherIndex(fares, a, b);
    if k < |fares| then TierValue(fares[k], isRegular) else 0
  }

  // ---------------------------------------------------------------
  // Station codes
  // ---------------------------------------------------------------

  /** parseCode: the text before the first '-', and Number(second piece) || 0. */
  function ParseCode(code: string): ParsedCode
  {
    var parts := Split(code, '-');
    ParsedCode(parts[0], if |parts| > 1 then JsNumberOr0(parts[1]) else 0)
  }

  /** A code without '-' is all prefix, at number 0. */
  lemma ParseCodeNoDash(code: string)
    requires '-' !in code
    ensures ParseCode(code) == ParsedCode(code, 0)
  {
    SplitNone(code, '-');
  }

  /** The number read from a code is never negative: the piece it comes from holds no '-'. */
  lemma ParseCodeNumber(code: string)
    ensures ParseCode(code).num >= 0
  {
    var parts := Split(code, '-');
    if |parts| > 1 {
      SplitPieces(code, '-');
      JsNumberOr0NonNegative(parts[1]);
    }
  }

  /** The prefix is the text before the first '-'. */
  lemma ParseCodePrefix(code: string)
    ensures '-' !in ParseCode(code).prefix && StartsWith(code, ParseCode(code).prefix)
  {
    SplitPieces(code, '-');
    SplitFirstIsPrefix(code, '-');
  }

  /** The code `${p}-${String(n).padStart(2,'0')}` the page synthesises for position n. */
  function SynthCode(p: string, n: int): string
  {
    p + "-" + JsPad2(n)
  }

  /** A line prefix, a '-' and a run of digits split into exactly the prefix and the digits. */
  lemma SplitCode(p: string, d: string)
    requires '-' !in p && '-' !in d
    ensures Split(p + "-" + d, '-') == [p, d]
  {
    assert p + "-" + d == p + ['-'] + d;
    SplitAt(p, '-', d);
    SplitNone(d, '-');
  }

  /** Parsing a synthesised code gives back its prefix and number. */
  lemma ParseSynthCode(p: string, n: nat)
    requires '-' !in p
    ensures ParseCode(SynthCode(p, n)) == ParsedCode(p, n)
  {
    var d := JsPad2(n);
    Pad2Value(n);
    assert forall i :: 0 <= i < |d| ==> d[i] != '-';
    SplitCode(p, d);
    JsNumberOfDigits(d);
  }

  // ---------------------------------------------------------------
  // Same-line sums
  // ---------------------------------------------------------------

  /** The sum seg(lo) + ... + seg(hi - 1) of the legs from number lo up to number hi. */
  function SegSum(seg: int -> int, lo: int, hi: int): int
    decreases hi - lo
  {
    if hi <= lo then 0 else SegSum(seg, lo, hi - 1) + seg(hi - 1)
  }

  /** The price of leg i of line p: the segment p-i -> p-(i+1). */
  function Legs(fares: seq<JsFare>, p: string, isRegular: bool): int -> int
  {
    i => SegFare(fares, SynthCode(p, i), SynthCode(p, i + 1), isRegular)
  }

  lemma {:induction false} SegSumSplit(seg: int -> int, lo: int, mid: int, hi: int)
    requires lo <= mid <= hi
    ensures SegSum(seg, lo, hi) == SegSum(seg, lo, mid) + SegSum(seg, mid, hi)
    decreases hi - mid
  {
    if hi > mid {
      SegSumSplit(seg, lo, mid, hi - 1);
    }
  }

  /** sumLineFare's value: None unless both prefixes are non-empty and equal, else the legs between the two numbers. */
  function LineFare(fares: seq<JsFare>, a: string, b: string, isRegular: bool): Option<int>
  {
    var pa, pb := ParseCode(a), ParseCode(b);
    if pa.prefix == "" || pb.prefix == "" || pa.prefix != pb.prefix then None
    else Some(SegSum(Legs(fares, pa.prefix, isRegular), Min(pa.num, pb.num), Max(pa.num, pb.num)))
  }

  /** A line sum exists exactly when both codes carry the same non-empty line prefix. */
  lemma LineFareDefined(fares: seq<JsFare>, a: string, b: string, isRegular: bool)
    ensures LineFare(fares, a, b, isRegular).Some? <==> ParseCode(a).prefix != "" && ParseCode(a).prefix == ParseCode(b).prefix
  {
  }

  /** The line sum walks from the lower number to the higher one whichever way it is asked. */
  lemma LineFareSymmetric(fares: seq<JsFare>, a: string, b: string, isRegular: bool)
    ensures LineFare(fares, a, b, isRegular) == LineFare(fares, b, a, isRegular)
  {
  }

  /** A station is at distance 0 from itself, and a different line is not summed at all. */
  lemma LineFareSelf(fares: seq<JsFare>, a: string, isRegular: bool)
    ensures LineFare(fares, a, a, isRegular) == if ParseCode(a).prefix == "" then None else Some(0)
  {
  }

  /** On one line, the fare to a farther station is the fare to an intermediate one plus the rest. */
  lemma LineFareAdditive(fares: seq<JsFare>, p: string, x: nat, y: nat, z: nat, isRegular: bool)
    requires '-' !in p && p != ""
    requires x <= y <= z
    ensures LineFare(fares, SynthCode(p, x), SynthCode(p, z), isRegular).Some?
    ensures LineFare(fares, SynthCode(p, x), SynthCode(p, y), isRegular).Some?
    ensures LineFare(fares, SynthCode(p, y), SynthCode(p, z), isRegular).Some?
    ensures LineFare(fares, SynthCode(p, x), SynthCode(p, z), isRegular).value
         == LineFare(fares, SynthCode(p, x), SynthCode(p, y), isRegular).value
          + LineFare(fares, SynthCode(p, y), SynthCode(p, z), isRegular).value
  {
    ParseSynthCode(p, x);
    ParseSynthCode(p, y);
    ParseSynthCode(p, z);
    SegSumSplit(Legs(fares, p, isRegular), x, y, z);
  }

  /** The loop of sumLineFare: the segments of line p from number lo up to number hi, added one by one. */
  method SumSegments(fares: seq<JsFare>, p: string, lo: int, hi: int, isRegular: bool) returns (total: int)
    requires lo <= hi
    ensures total == SegSum(Legs(fares, p, isRegular), lo, hi)
  {
    total := 0;
    var i := lo;
    while i < hi
      invariant lo <= i <= hi
      invariant total == SegSum(Legs(fares, p, isRegular), lo, i)
    {
      var leg := SegFare(fares, SynthCode(p, i), SynthCode(p, i + 1), isRegular);
      total := total + leg;
      i := i + 1;
    }
  }

  /**
   * line agrees with LineFare on every pair of codes. The trigger keeps the
   * agreement from being unfolded wherever line is applied.
   */
  ghost predicate PricesLines(line: (string, string) -> Option<int>, fares: seq<JsFare>, isRegular: bool)
  {
    forall x, y {:trigger LineFare(fares, x, y, isRegular)} :: line(x, y) == LineFare(fares, x, y, isRegular)
  }

  /** sumLineFare (main.js and console.js): None across lines, else the loop's sum; line names LineFare's values. */
  method SumLineFare(fares: seq<JsFare>, a: string, b: string, isRegular: bool, ghost line: (string, string) -> Option<int>)
    returns (r: Option<int>)
    requires PricesLines(line, fares, isRegular)
    ensures r == line(a, b)
  {
    var pa := ParseCode(a);
    var pb := ParseCode(b);
    if pa.prefix == "" || pb.prefix == "" || pa.prefix != pb.prefix {
      r := None;
    } else {
      var total := SumSegments(fares, pa.prefix, Min(pa.num, pb.num), Max(pa.num, pb.num), isRegular);
      r := Some(total);
    }
    assert r == LineFare(fares, a, b, isRegular);
  }

  // ---------------------------------------------------------------
  // Transfers through groups of same-named stations
  // ---------------------------------------------------------------

  /** A transfer candidate: both legs must exist, and changing between same-named codes is free. */
  function Pair(vi: Option<int>, vj: Option<int>): Option<int>
  {
    if vi.Some? && vj.Some? then Some(vi.value + vj.value) else None
  }

  /** The candidates for one entry leg vi and the exit legs vjs[0 .. n-1], in loop order. */
  function RowCands(vi: Option<int>, vjs: seq<Option<int>>, n: nat): seq<Option<int>>
    requires n <= |vjs|
  {
    if n == 0 then [] else RowCands(vi, vjs, n - 1) + [Pair(vi, vjs[n - 1])]
  }

  /** The candidates for the entry legs vis[0 .. m-1] against all exit legs, in loop order. */
  function GroupCands(vis: seq<Option<int>>, vjs: seq<Option<int>>, m: nat): seq<Option<int>>
    requires m <= |vis|
  {
    if m == 0 then [] else GroupCands(vis, vjs, m - 1) + RowCands(vis[m - 1], vjs, |vjs|)
  }

  /**
   * The same-line price as a value, so that the transfer search can be
   * stated over any symmetric line price.
   */
  function LinePrices(fares: seq<JsFare>, isRegular: bool): (line: (string, string) -> Option<int>)
    ensures forall x, y :: line(x, y) == LineFare(fares, x, y, isRegular)
  {
    (x, y) => LineFare(fares, x, y, isRegular)
  }

  /** Reversing the two codes does not change the line price. */
  lemma LinePricesSymmetric(fares: seq<JsFare>, isRegular: bool)
    ensures forall x, y :: LinePrices(fares, isRegular)(x, y) == LinePrices(fares, isRegular)(y, x)
  {
    forall x, y ensures LineFare(fares, x, y, isRegular) == LineFare(fares, y, x, isRegular) {
      LineFareSymmetric(fares, x, y, isRegular);
    }
  }

  /** line(from, g[k]) for every member of a group. */
  function LegsIn(line: (string, string) -> Option<int>, from: string, g: seq<string>): (r: seq<Option<int>>)
    ensures |r| == |g| && forall k :: 0 <= k < |g| ==> r[k] == line(from, g[k])
  {
    seq(|g|, k requires 0 <= k < |g| => line(from, g[k]))
  }

  /** line(g[k], to) for every member of a group. */
  function LegsOut(line: (string, string) -> Option<int>, g: seq<string>, to: string): (r: seq<Option<int>>)
    ensures |r| == |g| && forall k :: 0 <= k < |g| ==> r[k] == line(g[k], to)
  {
    seq(|g|, k requires 0 <= k < |g| => line(g[k], to))
  }

  /** The candidates of the groups groups[0 .. m-1], in loop order. */
  function AllCands(line: (string, string) -> Option<int>, groups: seq<seq<string>>, m: nat, from: string, to: string): seq<Option<int>>
    requires m <= |groups|
  {
    if m == 0 then []
    else
      var g := groups[m - 1];
      AllCands(line, groups, m - 1, from, to) + GroupCands(LegsIn(line, from, g), LegsOut(line, g, to), |g|)
  }

  /** x is the candidate for entering group g at some member and leaving it at some member. */
  predicate InGroup(line: (string, string) -> Option<int>, g: seq<string>, from: string, to: string, x: Option<int>)
  {
    exists i, j :: 0 <= i < |g| && 0 <= j < |g| && Pair(line(from, g[i]), line(g[j], to)) == x
  }

  /** v is the price of some transfer: a line leg into a group member, a line leg out of a member of the same group. */
  predicate IsTransfer(line: (string, string) -> Option<int>, groups: seq<seq<string>>, from: string, to: string, v: int)
  {
    exists gi :: 0 <= gi < |groups| && InGroup(line, groups[gi], from, to, Some(v))
  }

  /** The pair with exit member j is among the first n candidates of a row. */
  lemma {:induction false} RowCandsHas(vi: Option<int>, vjs: seq<Option<int>>, n: nat, j: nat)
    requires j < n <= |vjs|
    ensures Pair(vi, vjs[j]) in RowCands(vi, vjs, n)
    decreases n
  {
    assert RowCands(vi, vjs, n) == RowCands(vi, vjs, n - 1) + [Pair(vi, vjs[n - 1])];
    if j < n - 1 {
      RowCandsHas(vi, vjs, n - 1, j);
    }
  }

  /** Every candidate of a row comes from one of its exit members. */
  lemma {:induction false} RowCandsFrom(vi: Option<int>, vjs: seq<Option<int>>, n: nat, x: Option<int>) returns (j: nat)
    requires n <= |vjs| && x in RowCands(vi, vjs, n)
    ensures j < n && Pair(vi, vjs[j]) == x
    decreases n
  {
    assert RowCands(vi, vjs, n) == RowCands(vi, vjs, n - 1) + [Pair(vi, vjs[n - 1])];
    if x in RowCands(vi, vjs, n - 1) {
      j := RowCandsFrom(vi, vjs, n - 1, x);
    } else {
      j := n - 1;
    }
  }

  /** Every entry/exit pair of the first m entry members is among the candidates. */
  lemma {:induction false} GroupCandsHas(vis: seq<Option<int>>, vjs: seq<Option<int>>, m: nat, i: nat, j: nat)
    requires m <= |vis| && i < m && j < |vjs|
    ensures Pair(vis[i], vjs[j]) in GroupCands(vis, vjs, m)
    decreases m
  {
    var init, row := GroupCands(vis, vjs, m - 1), RowCands(vis[m - 1], vjs, |vjs|);
    assert GroupCands(vis, vjs, m) == init + row;
    if i < m - 1 {
      GroupCandsHas(vis, vjs, m - 1, i, j);
      assert Pair(vis[i], vjs[j]) in init;
    } else {
      RowCandsHas(vis[m - 1], vjs, |vjs|, j);
      assert Pair(vis[i], vjs[j]) in row;
    }
  }

  /** Every candidate comes from some entry/exit pair. */
  lemma {:induction false} GroupCandsFrom(vis: seq<Option<int>>, vjs: seq<Option<int>>, m: nat, x: Option<int>) returns (i: nat, j: nat)
    requires m <= |vis| && x in GroupCands(vis, vjs, m)
    ensures i < m && j < |vjs| && Pair(vis[i], vjs[j]) == x
    decreases m
  {
    var init, row := GroupCands(vis, vjs, m - 1), RowCands(vis[m - 1], vjs, |vjs|);
    assert GroupCands(vis, vjs, m) == init + row;
    if x in init {
      i, j := GroupCandsFrom(vis, vjs, m - 1, x);
    } else {
      i := m - 1;
      j := RowCandsFrom(vis[m - 1], vjs, |vjs|, x);
    }
  }

  lemma GroupLegsMember(line: (string, string) -> Option<int>, g: seq<string>, from: string, to: string, x: Option<int>)
    ensures x in GroupCands(LegsIn(line, from, g), LegsOut(line, g, to), |g|) <==> InGroup(line, g, from, to, x)
  {
    var vis, vjs := LegsIn(line, from, g), LegsOut(line, g, to);
    if x in GroupCands(vis, vjs, |g|) {
      var i, j := GroupCandsFrom(vis, vjs, |g|, x);
      assert Pair(line(from, g[i]), line(g[j], to)) == x;
    }
    if InGroup(line, g, from, to, x) {
      var i, j :| 0 <= i < |g| && 0 <= j < |g| && Pair(line(from, g[i]), line(g[j], to)) == x;
      assert Pair(vis[i], vjs[j]) == x;
      GroupCandsHas(vis, vjs, |g|, i, j);
    }
  }

  lemma {:induction false} AllCandsMember(line: (string, string) -> Option<int>, groups: seq<seq<string>>, m: nat, from: string, to: string, x: Option<int>)
    requires m <= |groups|
    ensures x in AllCands(line, groups, m, from, to) <==> exists gi :: 0 <= gi < m && InGroup(line, groups[gi], from, to, x)
    decreases m
  {
    if m > 0 {
      var g := groups[m - 1];
      var earlier := AllCands(line, groups, m - 1, from, to);
      assert AllCands(line, groups, m, from, to) == earlier + GroupCands(LegsIn(line, from, g), LegsOut(line, g, to), |g|);
      AllCandsMember(line, groups, m - 1, from, to, x);
      GroupLegsMember(line, g, from, to, x);
    }
  }

  /** The best transfer price: the minimum over all candidates, None when there is none. */
  function TransferFare(line: (string, string) -> Option<int>, groups: seq<seq<string>>, from: string, to: string): Option<int>
  {
    MinOfOpts(AllCands(line, groups, |groups|, from, to))
  }

  /** TransferFare is exactly the cheapest transfer, and None exactly when no transfer exists. */
  lemma TransferFareIsCheapest(line: (string, string) -> Option<int>, groups: seq<seq<string>>, from: string, to: string)
    ensures TransferFare(line, groups, from, to).None? <==> forall v :: !IsTransfer(line, groups, from, to, v)
    ensures TransferFare(line, groups, from, to).Some? ==>
        var best := TransferFare(line, groups, from, to).value;
        IsTransfer(line, groups, from, to, best) && forall v :: IsTransfer(line, groups, from, to, v) ==> best <= v
  {
    var s := AllCands(line, groups, |groups|, from, to);
    var r := MinOfOpts(s);
    MinOfOptsIsMin(s);
    forall v | IsTransfer(line, groups, from, to, v)
      ensures r.Some? && r.value <= v
    {
      AllCandsMember(line, groups, |groups|, from, to, Some(v));
      var k :| 0 <= k < |s| && s[k] == Some(v);
    }
    if r.Some? {
      AllCandsMember(line, groups, |groups|, from, to, r);
      assert IsTransfer(line, groups, from, to, r.value);
    }
  }

  /** With a symmetric line price, entering at g[i] and leaving at g[j] from a to b costs what entering at g[j] and leaving at g[i] costs from b to a. */
  lemma IsTransferSymmetric(line: (string, string) -> Option<int>, groups: seq<seq<string>>, a: string, b: string, v: int)
    requires forall x, y :: line(x, y) == line(y, x)
    ensures IsTransfer(line, groups, a, b, v) ==> IsTransfer(line, groups, b, a, v)
  {
    if IsTransfer(line, groups, a, b, v) {
      var gi :| 0 <= gi < |groups| && InGroup(line, groups[gi], a, b, Some(v));
      var g := groups[gi];
      var i, j :| 0 <= i < |g| && 0 <= j < |g| && Pair(line(a, g[i]), line(g[j], b)) == Some(v);
      assert Pair(line(b, g[j]), line(g[i], a)) == Some(v);
    }
  }

  /** With a symmetric line price, the cheapest transfer is the same either way round. */
  lemma TransferFareSymmetric(line: (string, string) -> Option<int>, groups: seq<seq<string>>, a: string, b: string)
    requires forall x, y :: line(x, y) == line(y, x)
    ensures TransferFare(line, groups, a, b) == TransferFare(line, groups, b, a)
  {
    TransferFareIsCheapest(line, groups, a, b);
    TransferFareIsCheapest(line, groups, b, a);
    forall v ensures IsTransfer(line, groups, a, b, v) <==> IsTransfer(line, groups, b, a, v) {
      IsTransferSymmetric(line, groups, a, b, v);
      IsTransferSymmetric(line, groups, b, a, v);
    }
  }

  /** sumWithTransfer's value: the same-line value whenever there is one (even 0), else the cheapest transfer. */
  function WithTransfer(line: (string, string) -> Option<int>, groups: seq<seq<string>>, from: string, to: string): Option<int>
  {
    var direct := line(from, to);
    if direct.Some? then direct else TransferFare(line, groups, from, to)
  }

  /** With a symmetric line price, sumWithTransfer's value is the same either way round. */
  lemma WithTransferSymmetric(line: (string, string) -> Option<int>, groups: seq<seq<string>>, a: string, b: string)
    requires forall x, y :: line(x, y) == line(y, x)
    ensures WithTransfer(line, groups, a, b) == WithTransfer(line, groups, b, a)
  {
    TransferFareSymmetric(line, groups, a, b);
  }

  /** A row whose entry leg is missing adds only None candidates. */
  lemma {:induction false} MinOfOptsNoneRow(vjs: seq<Option<int>>, n: nat, s: seq<Option<int>>)
    requires n <= |vjs|
    ensures MinOfOpts(s + RowCands(None, vjs, n)) == MinOfOpts(s)
    decreases n
  {
    if n > 0 {
      var row := RowCands(None, vjs, n - 1);
      MinOfOptsNoneRow(vjs, n - 1, s);
      assert s + RowCands(None, vjs, n) == (s + row) + [None];
      MinOfOptsSnoc(s + row, None);
    } else {
      assert s + RowCands(None, vjs, n) == s;
    }
  }

  /** sumWithTransfer: the direct line value, else the nested search over groups and member pairs. */
  method SumWithTransfer(fares: seq<JsFare>, groups: seq<seq<string>>, from: string, to: string, isRegular: bool) returns (r: Option<int>)
    ensures r == WithTransfer(LinePrices(fares, isRegular), groups, from, to)
  {
    ghost var line := LinePrices(fares, isRegular);
    var direct := SumLineFare(fares, from, to, isRegular, line);
    if direct.Some? {
      return direct;
    }
    var best: Option<int> := None;
    for gi := 0 to |groups|
      invariant best == MinOfOpts(AllCands(line, groups, gi, from, to))
    {
      var g := groups[gi];
      ghost var vis, vjs := LegsIn(line, from, g), LegsOut(line, g, to);
      assert AllCands(line, groups, gi + 1, from, to) == AllCands(line, groups, gi, from, to) + GroupCands(vis, vjs, |g|);
      best := ScanGroup(fares, g, from, to, isRegular, best, line, AllCands(line, groups, gi, from, to));
    }
    return best;
  }

  /** The loop over the entry members g[i] of one group. */
  method ScanGroup(fares: seq<JsFare>, g: seq<string>, from: string, to: string, isRegular: bool, best0: Option<int>,
                   ghost line: (string, string) -> Option<int>, ghost before: seq<Option<int>>)
    returns (best: Option<int>)
    requires PricesLines(line, fares, isRegular) && best0 == MinOfOpts(before)
    ensures best == MinOfOpts(before + GroupCands(LegsIn(line, from, g), LegsOut(line, g, to), |g|))
  {
    ghost var vis, vjs := LegsIn(line, from, g), LegsOut(line, g, to);
    assert |vis| == |g| && |vjs| == |g|;
    best := best0;
    assert before + GroupCands(vis, vjs, 0) == before;
    for i := 0 to |g|
      invariant best == MinOfOpts(before + GroupCands(vis, vjs, i))
    {
      ghost var prefix := before + GroupCands(vis, vjs, i);
      GroupCandsStep(before, vis, vjs, i);
      var vi := SumLineFare(fares, from, g[i], isRegular, line);
      assert vi == vis[i];
      assert before + GroupCands(vis, vjs, i + 1) == prefix + RowCands(vi, vjs, |g|);
      if vi.None? {
        MinOfOptsNoneRow(vjs, |g|, prefix);
        continue;
      }
      best := ScanExits(fares, g, to, isRegular, vi, best, line, prefix);
    }
  }

  /** The loop over the exit members g[j] of one group, after entering it with leg vi. */
  method ScanExits(fares: seq<JsFare>, g: seq<string>, to: string, isRegular: bool, vi: Option<int>, best0: Option<int>,
                   ghost line: (string, string) -> Option<int>, ghost prefix: seq<Option<int>>)
    returns (best: Option<int>)
    requires PricesLines(line, fares, isRegular) && vi.Some? && best0 == MinOfOpts(prefix)
    ensures best == MinOfOpts(prefix + RowCands(vi, LegsOut(line, g, to), |g|))
  {
    ghost var vjs := LegsOut(line, g, to);
    best := best0;
    assert prefix + RowCands(vi, vjs, 0) == prefix;
    for j := 0 to |g|
      invariant best == MinOfOpts(prefix + RowCands(vi, vjs, j))
    {
      RowCandsStep(prefix, vi, vjs, j);
      var vj := SumLineFare(fares, g[j], to, isRegular, line);
      if vj.None? {
        continue;
      }
      var cand := vi.value + vj.value;
      KeepCheaper(best, cand);
      if best.None? || cand < best.value {
        best := Some(cand);
      }
    }
  }

  /** One more entry member adds its row after the candidates gathered so far. */
  lemma GroupCandsStep(before: seq<Option<int>>, vis: seq<Option<int>>, vjs: seq<Option<int>>, i: nat)
    requires i < |vis|
    ensures before + GroupCands(vis, vjs, i + 1) == (before + GroupCands(vis, vjs, i)) + RowCands(vis[i], vjs, |vjs|)
  {
  }

  /** One more exit member folds its candidate into the running minimum. */
  lemma RowCandsStep(prefix: seq<Option<int>>, vi: Option<int>, vjs: seq<Option<int>>, j: nat)
    requires j < |vjs|
    ensures MinOfOpts(prefix + RowCands(vi, vjs, j + 1)) == MinOpt(MinOfOpts(prefix + RowCands(vi, vjs, j)), Pair(vi, vjs[j]))
  {
    assert prefix + RowCands(vi, vjs, j + 1) == (prefix + RowCands(vi, vjs, j)) + [Pair(vi, vjs[j])];
    MinOfOptsSnoc(prefix + RowCands(vi, vjs, j), Pair(vi, vjs[j]));
  }

  /** `if (best === null || cand < best) best = cand` folds cand into the running minimum. */
  lemma KeepCheaper(best: Option<int>, cand: int)
    ensures MinOpt(best, Some(cand)) == if best.None? || cand < best.value then Some(cand) else best
  {
  }

  // ---------------------------------------------------------------
  // Combining
  // ---------------------------------------------------------------

  /**
   * bestFareBetweenCodes (main.js): the transfer value if it is positive,
   * else the line value; that if positive, else the directly stored
   * record if positive, else no fare.
   */
  function BestFareBetweenCodes(fares: seq<JsFare>, groups: seq<seq<string>>, a: string, b: string, isRegular: bool): (r: Option<int>)
    ensures r.Some? ==> r.value > 0
  {
    var vLine := LineFare(fares, a, b, isRegular);
    var vTrans := WithTransfer(LinePrices(fares, isRegular), groups, a, b);
    var vSeg := DirectFare(fares, a, b, isRegular);
    var vPref := if vTrans.Some? && vTrans.value > 0 then vTrans else vLine;
    if vPref.Some? && vPref.value > 0 then vPref
    else if vSeg > 0 then Some(vSeg)
    else None
  }

  /** bestFareBetweenCodes is the zero rule applied to its three candidate values. */
  lemma BestFareIsCombine(fares: seq<JsFare>, groups: seq<seq<string>>, a: string, b: string, isRegular: bool)
    ensures BestFareBetweenCodes(fares, groups, a, b, isRegular)
         == Combine(LineFare(fares, a, b, isRegular), WithTransfer(LinePrices(fares, isRegular), groups, a, b),
                    DirectFare(fares, a, b, isRegular))
  {
  }

  /** The zero rule of bestFareBetweenCodes applied to the line, transfer and direct values. */
  function Combine(vLine: Option<int>, vTrans: Option<int>, vSeg: int): (r: Option<int>)
    ensures r.Some? ==> r.value > 0
  {
    var vPref := if vTrans.Some? && vTrans.value > 0 then vTrans else vLine;
    if vPref.Some? && vPref.value > 0 then vPref
    else if vSeg > 0 then Some(vSeg)
    else None
  }

  /** The chart shows the same fare for a -> b as for b -> a. */
  lemma BestFareSymmetric(fares: seq<JsFare>, groups: seq<seq<string>>, a: string, b: string, isRegular: bool)
    ensures BestFareBetweenCodes(fares, groups, a, b, isRegular) == BestFareBetweenCodes(fares, groups, b, a, isRegular)
  {
    var line := LinePrices(fares, isRegular);
    LineFareSymmetric(fares, a, b, isRegular);
    LinePricesSymmetric(fares, isRegular);
    WithTransferSymmetric(line, groups, a, b);
    EitherIndexSymmetric(fares, a, b);
    BestFareIsCombine(fares, groups, a, b, isRegular);
    BestFareIsCombine(fares, groups, b, a, isRegular);
  }

  /** A positive same-line sum always wins: the transfer search then returns that same sum. */
  lemma BestFareSameLine(fares: seq<JsFare>, groups: seq<seq<string>>, a: string, b: string, isRegular: bool)
    requires LineFare(fares, a, b, isRegular).Some? && LineFare(fares, a, b, isRegular).value > 0
    ensures BestFareBetweenCodes(fares, groups, a, b, isRegular) == LineFare(fares, a, b, isRegular)
  {
    var line := LinePrices(fares, isRegular);
    assert line(a, b) == LineFare(fares, a, b, isRegular);
    assert WithTransfer(line, groups, a, b) == LineFare(fares, a, b, isRegular);
  }

  /**
   * The asymmetric zero rule: a same-line sum of 0 (no segment priced yet)
   * blocks the transfer search, so only the directly stored record can
   * still give a fare.
   */
  lemma BestFareZeroLine(fares: seq<JsFare>, groups: seq<seq<string>>, a: string, b: string, isRegular: bool)
    requires LineFare(fares, a, b, isRegular) == Some(0)
    ensures BestFareBetweenCodes(fares, groups, a, b, isRegular)
         == if DirectFare(fares, a, b, isRegular) > 0 then Some(DirectFare(fares, a, b, isRegular)) else None
  {
  }

  /** Codes on different lines use the cheapest positive transfer if there is one. */
  lemma BestFareAcrossLines(fares: seq<JsFare>, groups: seq<seq<string>>, a: string, b: string, isRegular: bool)
    requires LineFare(fares, a, b, isRegular).None?
    requires TransferFare(LinePrices(fares, isRegular), groups, a, b).Some? && TransferFare(LinePrices(fares, isRegular), groups, a, b).value > 0
    ensures BestFareBetweenCodes(fares, groups, a, b, isRegular) == TransferFare(LinePrices(fares, isRegular), groups, a, b)
  {
  }

  // ---------------------------------------------------------------
  // Route colours (main.js)
  // ---------------------------------------------------------------

  const DefaultColor: string := "#93a2b7"

  /** `li.color || '#93a2b7'` */
  function ColorOf(li: JsLine): string
  {
    if li.color == "" then DefaultColor else li.color
  }

  function Count(s: seq<string>, x: string): nat
  {
    if s == [] then 0 else Count(s[..|s| - 1], x) + (if s[|s| - 1] == x then 1 else 0)
  }

  function Repeat(li: JsLine, n: nat): seq<JsLine>
  {
    if n == 0 then [] else Repeat(li, n - 1) + [li]
  }

  /** linesForStation[code]: each line once per listing of the code, in line order. */
  function LinesFor(lines: seq<JsLine>, code: string): seq<JsLine>
  {
    if lines == [] then []
    else Repeat(lines[0], Count(lines[0].stations, code)) + LinesFor(lines[1..], code)
  }

  /** The lines listed for a code are exactly the lines whose stations include it. */
  lemma {:induction false} LinesForMember(lines: seq<JsLine>, code: string, li: JsLine)
    ensures li in LinesFor(lines, code) <==> li in lines && code in li.stations
  {
    if lines != [] {
      var n := Count(lines[0].stations, code);
      LinesForMember(lines[1..], code, li);
      RepeatElements(lines[0], n);
      CountPositive(lines[0].stations, code);
      if li == lines[0] && code in li.stations {
        assert Repeat(lines[0], n)[0] in Repeat(lines[0], n);
      }
      if li in lines && li != lines[0] {
        var k :| 0 <= k < |lines| && lines[k] == li;
        assert lines[1..][k - 1] == li;
      }
    }
  }

  lemma {:induction false} CountPositive(s: seq<string>, x: string)
    ensures Count(s, x) > 0 <==> x in s
  {
    if s != [] {
      CountPositive(s[..|s| - 1], x);
      if Count(s[..|s| - 1], x) > 0 { assert x in s[..|s| - 1]; }
      if x in s && s[|s| - 1] != x {
        var k :| 0 <= k < |s| && s[k] == x;
        assert s[..|s| - 1][k] == x;
      }
    }
  }

  lemma {:induction false} RepeatElements(li: JsLine, n: nat)
    ensures |Repeat(li, n)| == n && forall y :: y in Repeat(li, n) ==> y == li
  {
    if n > 0 { RepeatElements(li, n - 1); }
  }

  predicate SharesId(x: JsLine, lb: seq<JsLine>)
  {
    exists k :: 0 <= k < |lb| && lb[k].id == x.id
  }

  /** la.find(x => lb.some(y => y.id === x.id)) */
  function FindShared(la: seq<JsLine>, lb: seq<JsLine>): (r: Option<JsLine>)
    ensures r.Some? ==> r.value in la && SharesId(r.value, lb)
    ensures r.None? ==> forall i :: 0 <= i < |la| ==> !SharesId(la[i], lb)
  {
    if la == [] then None
    else if SharesId(la[0], lb) then Some(la[0])
    else
      var r := FindShared(la[1..], lb);
      assert forall i :: 1 <= i < |la| ==> la[i] == la[1..][i - 1];
      r
  }

  predicate TouchesGroup(li: JsLine, g: seq<string>)
  {
    exists k :: 0 <= k < |li.stations| && li.stations[k] in g
  }

  /** ls.find(li => li.stations.some(code => g.includes(code))) */
  function FindTouching(ls: seq<JsLine>, g: seq<string>): (r: Option<JsLine>)
    ensures r.Some? ==> r.value in ls && TouchesGroup(r.value, g)
  {
    if ls == [] then None
    else if TouchesGroup(ls[0], g) then Some(ls[0])
    else FindTouching(ls[1..], g)
  }

  /** The loop over colour groups: the first group that both station's lines reach. */
  function ViaGroups(la: seq<JsLine>, lb: seq<JsLine>, gs: seq<seq<string>>): (r: seq<string>)
    ensures |r| <= 2
    ensures |r| == 1 ==> exists x, y :: x in la && y in lb && x.id == y.id
  {
    if gs == [] then []
    else
      var s := FindTouching(la, gs[0]);
      var e := FindTouching(lb, gs[0]);
      if s.Some? && e.Some? then
        (if s.value.id == e.value.id then [ColorOf(s.value)] else [ColorOf(s.value), ColorOf(e.value)])
      else ViaGroups(la, lb, gs[1..])
  }

  /**
   * colorsForRoute (main.js): the colour of a shared line, else the
   * colours of the lines reaching a common same-named group, else none.
   */
  function ColorsForRoute(lines: seq<JsLine>, colorGroups: seq<seq<string>>, a: string, b: string): (r: seq<string>)
    ensures |r| <= 2
  {
    var la := LinesFor(lines, a);
    var lb := LinesFor(lines, b);
    var same := FindShared(la, lb);
    if same.Some? then [ColorOf(same.value)] else ViaGroups(la, lb, colorGroups)
  }

  /**
   * One colour exactly when a and b lie on a common line: without a shared
   * line the transfer branch always yields zero or two colours, so its
   * single-colour case never happens.
   */
  lemma ColorsForRouteOneColor(lines: seq<JsLine>, colorGroups: seq<seq<string>>, a: string, b: string)
    ensures |ColorsForRoute(lines, colorGroups, a, b)| == 1
        <==> exists x, y :: x in LinesFor(lines, a) && y in LinesFor(lines, b) && x.id == y.id
  {
    var la := LinesFor(lines, a);
    var lb := LinesFor(lines, b);
    if exists x, y :: x in la && y in lb && x.id == y.id {
      var x, y :| x in la && y in lb && x.id == y.id;
      var i :| 0 <= i < |la| && la[i] == x;
      var k :| 0 <= k < |lb| && lb[k] == y;
      assert SharesId(la[i], lb);
    }
  }
}
