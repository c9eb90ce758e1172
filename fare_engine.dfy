/**
 * The server's fare calculator (manager/FareCalculationEngine.java): the
 * port of the web page's algorithm onto the registry. It differs from the
 * page in four ways: a code with a bad number keeps its prefix, "not on one
 * line" is the sentinel -1, stations are grouped under their Chinese and
 * their English name as separate keys, and a transfer only counts a single
 * same-line leg between members of the two endpoints' groups.
 *
 * The station registry is read in its iteration order, given as a sequence
 * of stations; groups are kept in the order their keys first appear.
 */
module FareEngine {
  import opened Wrappers
  import opened Text
  import MF = MainFares
  import opened FareData
  import opened StationData
  import opened Network

  // ---------------------------------------------------------------
  // Codes
  // ---------------------------------------------------------------

  /**
   * parseCode: ("", 0) for an empty code or one that does not split into
   * exactly two pieces around '-'; otherwise the first piece and the
   * second read as an int, or 0 when it is not one.
   */
  function ParseCode(code: string): MF.ParsedCode
  {
    if code == "" then MF.ParsedCode("", 0)
    else
      var parts := JavaSplit(code, '-');
      if |parts| != 2 then MF.ParsedCode("", 0)
      else
        match JavaParseInt(parts[1])
        case Some(n) => MF.ParsedCode(parts[0], n)
        case None => MF.ParsedCode(parts[0], 0)
  }

  /** Java's String.split on prefix + "-" + digits, with no '-' in either part. */
  lemma SplitCode(p: string, d: string)
    requires '-' !in p && '-' !in d && d != ""
    ensures JavaSplit(p + "-" + d, '-') == [p, d]
  {
    MF.SplitCode(p, d);
    assert '-' in p + "-" + d by {
      assert (p + "-" + d)[|p|] == '-';
    }
  }

  /**
   * The code String.format("%s-%02d", p, n) produces parses back to p and
   * n, for a prefix without '-' and any number an int can hold.
   */
  lemma ParseSynthCode(p: string, n: nat)
    requires '-' !in p && n <= IntMax
    ensures ParseCode(MF.SynthCode(p, n)) == MF.ParsedCode(p, n)
  {
    var d := Pad2(n);
    Pad2Value(n);
    assert forall i :: 0 <= i < |d| ==> d[i] != '-';
    SplitCode(p, d);
    assert JavaParseInt(d) == Some(n) by {
      assert d[0] != '-' && d[0] != '+';
    }
  }

  /** Unlike the page, a code whose number does not parse keeps its prefix (at number 0). */
  lemma ParseCodeBadNumber(p: string, d: string)
    requires '-' !in p && '-' !in d && d != "" && JavaParseInt(d).None?
    ensures ParseCode(p + "-" + d) == MF.ParsedCode(p, 0)
  {
    SplitCode(p, d);
  }

  /** A third piece makes the whole code unreadable: no prefix at all. */
  lemma ParseCodeThreePieces(p: string, q: string, d: string)
    requires '-' !in p && '-' !in q && '-' !in d && d != ""
    ensures ParseCode(p + "-" + q + "-" + d) == MF.ParsedCode("", 0)
  {
    var code := p + "-" + q + "-" + d;
    assert code == p + ['-'] + (q + "-" + d);
    SplitAt(p, '-', q + "-" + d);
    MF.SplitCode(q, d);
    assert Split(code, '-') == [p, q, d];
    assert code[|p|] == '-';
  }

  // ---------------------------------------------------------------
  // Segment and same-line prices
  // ---------------------------------------------------------------

  /**
   * segFare: 0 for an empty endpoint; otherwise the stored price for
   * (from, to) when positive, else the one for (to, from) when positive,
   * else 0. The regular/express flag is ignored: the registry holds one price.
   */
  function SegFare(fares: map<string, Fare>, from: string, to: string): int
  {
    if from == "" || to == "" then 0
    else
      var f := LookupFare(fares, from, to);
      if f.Some? && f.value.price > 0 then f.value.price
      else
        var g := LookupFare(fares, to, from);
        if g.Some? && g.value.price > 0 then g.value.price else 0
  }

  /** A segment price is the positive price stored for the pair, or 0; it does not depend on the direction. */
  lemma SegFareSpec(fares: map<string, Fare>, from: string, to: string)
    ensures SegFare(fares, from, to) >= 0
    ensures SegFare(fares, from, to) == SegFare(fares, to, from)
    ensures SegFare(fares, from, to) > 0 <==>
              from != "" && to != "" && FareKey(from, to) in fares && fares[FareKey(from, to)].price > 0
    ensures SegFare(fares, from, to) > 0 ==> SegFare(fares, from, to) == fares[FareKey(from, to)].price
  {
    LookupFareSymmetric(fares, from, to);
  }

  /** The price of leg i of line p: the segment p-i -> p-(i+1), formatted with "%s-%02d". */
  function Legs(fares: map<string, Fare>, p: string): int -> int
  {
    i => SegFare(fares, MF.SynthCode(p, i), MF.SynthCode(p, i + 1))
  }

  /** sumLineFare: -1 unless both prefixes are non-empty and equal, else the legs between the two numbers. */
  function LineFare(fares: map<string, Fare>, a: string, b: string): int
  {
    var pa, pb := ParseCode(a), ParseCode(b);
    if pa.prefix == "" || pb.prefix == "" || pa.prefix != pb.prefix then -1
    else MF.SegSum(Legs(fares, pa.prefix), MF.Min(pa.num, pb.num), MF.Max(pa.num, pb.num))
  }

  /** Legs are never negative, so neither is a sum of them. */
  lemma {:induction false} SegSumNonNegative(fares: map<string, Fare>, p: string, lo: int, hi: int)
    ensures MF.SegSum(Legs(fares, p), lo, hi) >= 0
    decreases hi - lo
  {
    if hi > lo {
      SegSumNonNegative(fares, p, lo, hi - 1);
      SegFareSpec(fares, MF.SynthCode(p, hi - 1), MF.SynthCode(p, hi));
    }
  }

  /**
   * The line sum is -1 exactly across lines (or for a code without a
   * prefix), otherwise non-negative; it is symmetric, and 0 from a
   * station to itself.
   */
  lemma LineFareSpec(fares: map<string, Fare>, a: string, b: string)
    ensures LineFare(fares, a, b) == LineFare(fares, b, a)
    ensures LineFare(fares, a, b) >= -1
    ensures LineFare(fares, a, b) >= 0 <==> ParseCode(a).prefix != "" && ParseCode(a).prefix == ParseCode(b).prefix
    ensures ParseCode(a).prefix != "" ==> LineFare(fares, a, a) == 0
  {
    var pa, pb := ParseCode(a), ParseCode(b);
    if pa.prefix != "" && pa.prefix == pb.prefix {
      var lo, hi := MF.Min(pa.num, pb.num), MF.Max(pa.num, pb.num);
      assert lo == MF.Min(pb.num, pa.num) && hi == MF.Max(pb.num, pa.num);
      assert LineFare(fares, a, b) == MF.SegSum(Legs(fares, pa.prefix), lo, hi) == LineFare(fares, b, a);
      SegSumNonNegative(fares, pa.prefix, lo, hi);
    } else {
      assert LineFare(fares, a, b) == -1 == LineFare(fares, b, a);
    }
    if pa.prefix != "" {
      assert LineFare(fares, a, a) == MF.SegSum(Legs(fares, pa.prefix), pa.num, pa.num);
    }
  }

  /** On one line, the fare to a farther station is the fare to an intermediate one plus the rest. */
  lemma LineFareAdditive(fares: map<string, Fare>, p: string, x: nat, y: nat, z: nat)
    requires '-' !in p && p != ""
    requires x <= y <= z <= IntMax
    ensures LineFare(fares, MF.SynthCode(p, x), MF.SynthCode(p, z))
         == LineFare(fares, MF.SynthCode(p, x), MF.SynthCode(p, y)) + LineFare(fares, MF.SynthCode(p, y), MF.SynthCode(p, z))
  {
    ParseSynthCode(p, x);
    ParseSynthCode(p, y);
    ParseSynthCode(p, z);
    MF.SegSumSplit(Legs(fares, p), x, y, z);
  }

  /**
   * sumLineFare's loop: the segments between the two numbers added one by
   * one. A missing segment only marks the result for a log message, so it
   * adds 0.
   */
  method SumSegments(net: Registry, p: string, lo: int, hi: int) returns (total: int)
    requires lo <= hi
    ensures total == MF.SegSum(Legs(net.fares, p), lo, hi)
  {
    total := 0;
    var i := lo;
    while i < hi
      invariant lo <= i <= hi
      invariant total == MF.SegSum(Legs(net.fares, p), lo, i)
    {
      var segmentFare := SegFare(net.fares, MF.SynthCode(p, i), MF.SynthCode(p, i + 1));
      total := total + segmentFare;
      i := i + 1;
    }
  }

  /** sumLineFare: -1 across lines, else the sum of the segments between the two numbers. */
  method SumLineFare(net: Registry, a: string, b: string) returns (total: int)
    ensures total == LineFare(net.fares, a, b)
  {
    var pa := ParseCode(a);
    var pb := ParseCode(b);
    if pa.prefix == "" || pb.prefix == "" || pa.prefix != pb.prefix {
      return -1;
    }
    total := SumSegments(net, pa.prefix, MF.Min(pa.num, pb.num), MF.Max(pa.num, pb.num));
  }

  // ---------------------------------------------------------------
  // Same-name station groups
  // ---------------------------------------------------------------

  /** What buildStationGroups reads of a station. */
  datatype StationNames = StationNames(code: string, name: string, enName: string)

  /** The stations' codes and names at the moment they are read, in iteration order. */
  function Snapshot(order: seq<Station>): (r: seq<StationNames>)
    reads order
    ensures |r| == |order|
    ensures forall i :: 0 <= i < |order| ==> r[i] == StationNames(order[i].code, order[i].name, order[i].enName)
  {
    if order == [] then []
    else
      var s := order[|order| - 1];
      Snapshot(order[..|order| - 1]) + [StationNames(s.code, s.name, s.enName)]
  }

  /**
   * The keys a station is filed under: none when its trimmed Chinese name
   * is empty; otherwise that name, then the trimmed English name when it is
   * not empty. Both may be the same key.
   */
  function GroupKeys(s: StationNames): (keys: seq<string>)
    ensures |keys| <= 2 && forall k :: k in keys ==> k != ""
  {
    var nameKey := TrimJava(s.name);
    if nameKey == "" then []
    else [nameKey] + (var enKey := TrimJava(s.enName); if enKey != "" then [enKey] else [])
  }

  /** One entry of the group map: a key and the codes filed under it, in the order they were added. */
  datatype Group = Group(key: string, codes: seq<string>)

  /** The position of the group with this key, or |gs| when there is none. */
  function KeyIndex(gs: seq<Group>, key: string): (i: nat)
    ensures i <= |gs|
    ensures i < |gs| ==> gs[i].key == key
    ensures forall j :: 0 <= j < i ==> gs[j].key != key
  {
    if gs == [] then 0
    else if gs[0].key == key then 0
    else 1 + KeyIndex(gs[1..], key)
  }

  /** groups.computeIfAbsent(key, ...).add(code). */
  function AddCode(gs: seq<Group>, key: string, code: string): seq<Group>
  {
    var i := KeyIndex(gs, key);
    if i < |gs| then gs[i := Group(key, gs[i].codes + [code])] else gs + [Group(key, [code])]
  }

  /** Files one code under each of its keys in turn. */
  function AddCodes(gs: seq<Group>, keys: seq<string>, code: string): seq<Group>
    decreases |keys|
  {
    if keys == [] then gs else AddCodes(AddCode(gs, keys[0], code), keys[1..], code)
  }

  /** The group map after the loop over the stations, before the size filter. */
  function AllGroups(ss: seq<StationNames>): seq<Group>
  {
    if ss == [] then []
    else AddCodes(AllGroups(ss[..|ss| - 1]), GroupKeys(ss[|ss| - 1]), ss[|ss| - 1].code)
  }

  /** The groups with more than one entry. */
  function KeepShared(gs: seq<Group>): (r: seq<Group>)
    ensures forall g :: g in r ==> g in gs && |g.codes| > 1
    ensures forall g :: g in gs && |g.codes| > 1 ==> g in r
  {
    if gs == [] then []
    else (if |gs[0].codes| > 1 then [gs[0]] else []) + KeepShared(gs[1..])
  }

  /** buildStationGroups' result. */
  function StationGroups(ss: seq<StationNames>): seq<Group>
  {
    KeepShared(AllGroups(ss))
  }

  /** The codes filed under key k: each station's code once per key of its own equal to k. */
  function CodesFor(ss: seq<StationNames>, k: string): seq<string>
  {
    if ss == [] then []
    else CodesFor(ss[..|ss| - 1], k) + Filed(GroupKeys(ss[|ss| - 1]), k, ss[|ss| - 1].code)
  }

  /** The code once for every key in keys equal to k. */
  function Filed(keys: seq<string>, k: string, code: string): seq<string>
  {
    if keys == [] then [] else (if keys[0] == k then [code] else []) + Filed(keys[1..], k, code)
  }

  /** No two groups share a key. */
  predicate DistinctKeys(gs: seq<Group>)
  {
    forall i, j :: 0 <= i < j < |gs| ==> gs[i].key != gs[j].key
  }

  /** The shape the group map keeps: one group per key, none of them empty. */
  predicate WellFormed(gs: seq<Group>)
  {
    DistinctKeys(gs) && forall i :: 0 <= i < |gs| ==> gs[i].codes != []
  }

  /** groups.get(key), with an absent key read as no codes. */
  function Lookup(gs: seq<Group>, key: string): seq<string>
  {
    var i := KeyIndex(gs, key);
    if i < |gs| then gs[i].codes else []
  }

  /** In a map with distinct keys, each group is found at its own position. */
  lemma KeyIndexOfDistinct(gs: seq<Group>, i: nat)
    requires DistinctKeys(gs) && i < |gs|
    ensures KeyIndex(gs, gs[i].key) == i
  {
  }

  /** Changing only the codes of a group leaves every key where it was. */
  lemma KeyIndexSameKeys(gs: seq<Group>, hs: seq<Group>, key: string)
    requires |gs| == |hs| && forall i :: 0 <= i < |gs| ==> gs[i].key == hs[i].key
    ensures KeyIndex(gs, key) == KeyIndex(hs, key)
  {
  }

  /** A group appended after the others is found only when no earlier one has the key. */
  lemma {:induction false} KeyIndexAppend(gs: seq<Group>, g: Group, key: string)
    ensures KeyIndex(gs + [g], key) == if KeyIndex(gs, key) < |gs| then KeyIndex(gs, key) else if g.key == key then |gs| else |gs| + 1
  {
    if gs != [] {
      assert (gs + [g])[1..] == gs[1..] + [g];
      KeyIndexAppend(gs[1..], g, key);
    }
  }

  /** computeIfAbsent(key).add(code) appends the code to that key's list and to no other. */
  lemma AddCodeSpec(gs: seq<Group>, key: string, code: string)
    requires WellFormed(gs)
    ensures WellFormed(AddCode(gs, key, code))
    ensures forall k :: Lookup(AddCode(gs, key, code), k) == Lookup(gs, k) + (if k == key then [code] else [])
  {
    var r := AddCode(gs, key, code);
    var i := KeyIndex(gs, key);
    if i < |gs| {
      forall k ensures KeyIndex(r, k) == KeyIndex(gs, k) {
        KeyIndexSameKeys(gs, r, k);
      }
    } else {
      forall k ensures KeyIndex(r, k) == if KeyIndex(gs, k) < |gs| then KeyIndex(gs, k) else if key == k then |gs| else |gs| + 1 {
        KeyIndexAppend(gs, Group(key, [code]), k);
      }
      assert r[|gs|].key == key;
    }
  }

  /** Filing a code under several keys appends it to each key's list once per occurrence of the key. */
  lemma {:induction false} AddCodesSpec(gs: seq<Group>, keys: seq<string>, code: string)
    requires WellFormed(gs)
    ensures WellFormed(AddCodes(gs, keys, code))
    ensures forall k :: Lookup(AddCodes(gs, keys, code), k) == Lookup(gs, k) + Filed(keys, k, code)
    decreases |keys|
  {
    if keys != [] {
      var next := AddCode(gs, keys[0], code);
      AddCodeSpec(gs, keys[0], code);
      AddCodesSpec(next, keys[1..], code);
    }
  }

  /**
   * The group map built by the loop lists, under every key, exactly the
   * codes filed under it, in registry order, with one group per key.
   */
  lemma {:induction false} AllGroupsSpec(ss: seq<StationNames>)
    ensures WellFormed(AllGroups(ss))
    ensures forall k :: Lookup(AllGroups(ss), k) == CodesFor(ss, k)
  {
    if ss != [] {
      var init := ss[..|ss| - 1];
      AllGroupsSpec(init);
      AddCodesSpec(AllGroups(init), GroupKeys(ss[|ss| - 1]), ss[|ss| - 1].code);
    }
  }

  /**
   * buildStationGroups keeps exactly the keys filed more than once: each
   * kept group lists every code filed under its key.
   */
  lemma StationGroupsSpec(ss: seq<StationNames>)
    ensures forall g :: g in StationGroups(ss) ==> g.codes == CodesFor(ss, g.key) && |g.codes| > 1
    ensures forall k :: |CodesFor(ss, k)| > 1 ==> Group(k, CodesFor(ss, k)) in StationGroups(ss)
  {
    var gs := AllGroups(ss);
    AllGroupsSpec(ss);
    forall g | g in StationGroups(ss) ensures g.codes == CodesFor(ss, g.key) {
      var i :| 0 <= i < |gs| && gs[i] == g;
      KeyIndexOfDistinct(gs, i);
    }
    forall k | |CodesFor(ss, k)| > 1 ensures Group(k, CodesFor(ss, k)) in StationGroups(ss) {
      var i := KeyIndex(gs, k);
      assert Lookup(gs, k) == CodesFor(ss, k);
      assert gs[i] == Group(k, CodesFor(ss, k));
    }
  }

  /**
   * A station whose trimmed Chinese and English names are the same is filed
   * twice under that key, so its group is kept even when no other station
   * shares the name.
   */
  lemma TwinNamesFiledTwice(s: StationNames)
    requires TrimJava(s.name) != "" && TrimJava(s.enName) == TrimJava(s.name)
    ensures CodesFor([s], TrimJava(s.name)) == [s.code, s.code]
    ensures Group(TrimJava(s.name), [s.code, s.code]) in StationGroups([s])
  {
    var k := TrimJava(s.name);
    assert GroupKeys(s) == [k, k];
    assert [s][..0] == [];
    assert Filed([k], k, s.code) == [s.code];
    assert CodesFor([s], k) == CodesFor([], k) + Filed([k, k], k, s.code);
    StationGroupsSpec([s]);
  }

  /**
   * buildStationGroups: files each station's code under its keys while
   * walking the registry, then keeps the groups with more than one entry.
   */
  method BuildStationGroups(order: seq<Station>) returns (groups: seq<Group>)
    ensures groups == StationGroups(Snapshot(order))
  {
    ghost var ss := Snapshot(order);
    var all: seq<Group> := [];
    var i := 0;
    while i < |order|
      invariant 0 <= i <= |order|
      invariant all == AllGroups(ss[..i])
    {
      var s := order[i];
      assert ss[i] == StationNames(s.code, s.name, s.enName);
      var keys := GroupKeys(StationNames(s.code, s.name, s.enName));
      AllGroupsSnoc(ss, i);
      all := AddCodes(all, keys, s.code);
      i := i + 1;
    }
    assert ss[..i] == ss;
    groups := KeepShared(all);
  }

  lemma AllGroupsSnoc(ss: seq<StationNames>, i: nat)
    requires i < |ss|
    ensures AllGroups(ss[..i + 1]) == AddCodes(AllGroups(ss[..i]), GroupKeys(ss[i]), ss[i].code)
  {
    assert ss[..i + 1][..i] == ss[..i];
  }

  /** findStationGroup's answer: the position of the first group listing the code. */
  function FindGroup(gs: seq<Group>, code: string): (r: Option<nat>)
    ensures r.Some? ==> r.value < |gs| && code in gs[r.value].codes
    ensures r.Some? ==> forall j :: 0 <= j < r.value ==> code !in gs[j].codes
    ensures r.None? ==> forall j :: 0 <= j < |gs| ==> code !in gs[j].codes
  {
    if gs == [] then None
    else if code in gs[0].codes then Some(0)
    else
      var r := FindGroup(gs[1..], code);
      if r.None? then None else Some(r.value + 1)
  }

  /** findStationGroup: scans the groups in order for one listing the code. */
  method FindStationGroup(gs: seq<Group>, code: string) returns (r: Option<nat>)
    ensures r == FindGroup(gs, code)
  {
    var i := 0;
    while i < |gs|
      invariant 0 <= i <= |gs|
      invariant forall j :: 0 <= j < i ==> code !in gs[j].codes
    {
      if code in gs[i].codes {
        FindGroupFirst(gs, code, i);
        return Some(i);
      }
      i := i + 1;
    }
    return None;
  }

  lemma FindGroupFirst(gs: seq<Group>, code: string, i: nat)
    requires i < |gs| && code in gs[i].codes
    requires forall j :: 0 <= j < i ==> code !in gs[j].codes
    ensures FindGroup(gs, code) == Some(i)
  {
    var r := FindGroup(gs, code);
    assert r.Some? && r.value <= i;
  }

  // ---------------------------------------------------------------
  // Transfers
  // ---------------------------------------------------------------

  /** A leg price as a candidate: none when the leg is not on one line. */
  function AsCandidate(v: int): Option<int>
  {
    if v < 0 then None else Some(v)
  }

  /** The candidates x -> y for y in ys, in order. */
  function RowCands(leg: (string, string) -> int, x: string, ys: seq<string>): seq<Option<int>>
  {
    if ys == [] then [] else RowCands(leg, x, ys[..|ys| - 1]) + [AsCandidate(leg(x, ys[|ys| - 1]))]
  }

  /** The candidates of the nested loops, row by row. */
  function Cands(leg: (string, string) -> int, xs: seq<string>, ys: seq<string>): seq<Option<int>>
  {
    if xs == [] then [] else Cands(leg, xs[..|xs| - 1], ys) + RowCands(leg, xs[|xs| - 1], ys)
  }

  /** The line sum as the leg price between two group members. */
  function LineLeg(fares: map<string, Fare>): (string, string) -> int
  {
    (x, y) => LineFare(fares, x, y)
  }

  /** bestFare's final reading: -1 when no candidate beat Integer.MAX_VALUE, else the best one. */
  function Capped(best: Option<int>): int
  {
    if best.None? || best.value >= IntMax then -1 else best.value
  }

  /**
   * The transfer part of sumWithTransfer: -1 without groups or when an
   * endpoint is in none; 0 when both are found in the same group; else the
   * cheapest same-line leg from a member of the start's group to a member
   * of the end's group.
   */
  function GroupTransfer(leg: (string, string) -> int, gs: seq<Group>, from: string, to: string): int
  {
    if gs == [] then -1
    else
      var fg, tg := FindGroup(gs, from), FindGroup(gs, to);
      if fg.None? || tg.None? then -1
      else if fg.value == tg.value then 0
      else Capped(MinOfOpts(Cands(leg, gs[fg.value].codes, gs[tg.value].codes)))
  }

  /** sumWithTransfer: the same-line value when there is one (even 0), else the transfer value. */
  function TransferFare(fares: map<string, Fare>, gs: seq<Group>, from: string, to: string): int
  {
    var direct := LineFare(fares, from, to);
    if direct >= 0 then direct else GroupTransfer(LineLeg(fares), gs, from, to)
  }

  /** Each candidate is the leg between some member x of xs and some member y of ys. */
  lemma {:induction false} CandsFrom(leg: (string, string) -> int, xs: seq<string>, ys: seq<string>, c: Option<int>)
    requires c in Cands(leg, xs, ys) && c.Some?
    ensures exists x, y :: x in xs && y in ys && c == AsCandidate(leg(x, y))
  {
    var init := xs[..|xs| - 1];
    if c in Cands(leg, init, ys) {
      CandsFrom(leg, init, ys, c);
      var x, y :| x in init && y in ys && c == AsCandidate(leg(x, y));
      assert x in xs;
    } else {
      RowCandsFrom(leg, xs[|xs| - 1], ys, c);
    }
  }

  lemma {:induction false} RowCandsFrom(leg: (string, string) -> int, x: string, ys: seq<string>, c: Option<int>)
    requires c in RowCands(leg, x, ys)
    ensures exists y :: y in ys && c == AsCandidate(leg(x, y))
  {
    var init := ys[..|ys| - 1];
    if c in RowCands(leg, x, init) {
      RowCandsFrom(leg, x, init, c);
      var y :| y in init && c == AsCandidate(leg(x, y));
      assert y in ys;
    }
  }

  /** Every pair of members offers its leg as a candidate. */
  lemma {:induction false} CandsHas(leg: (string, string) -> int, xs: seq<string>, ys: seq<string>, i: nat, j: nat)
    requires i < |xs| && j < |ys|
    ensures AsCandidate(leg(xs[i], ys[j])) in Cands(leg, xs, ys)
  {
    if i < |xs| - 1 {
      CandsHas(leg, xs[..|xs| - 1], ys, i, j);
    } else {
      RowCandsHas(leg, xs[i], ys, j);
    }
  }

  lemma {:induction false} RowCandsHas(leg: (string, string) -> int, x: string, ys: seq<string>, j: nat)
    requires j < |ys|
    ensures AsCandidate(leg(x, ys[j])) in RowCands(leg, x, ys)
  {
    if j < |ys| - 1 {
      RowCandsHas(leg, x, ys[..|ys| - 1], j);
    }
  }

  /**
   * The best candidate is a non-negative leg between members of the two
   * lists, and no non-negative leg between members is cheaper; there is
   * none exactly when every leg is negative.
   */
  lemma CandsBest(leg: (string, string) -> int, xs: seq<string>, ys: seq<string>)
    ensures var m := MinOfOpts(Cands(leg, xs, ys));
            (m.Some? ==> m.value >= 0 && exists x, y :: x in xs && y in ys && leg(x, y) == m.value)
            && (forall x, y :: x in xs && y in ys && leg(x, y) >= 0 ==> m.Some? && m.value <= leg(x, y))
  {
    var cs := Cands(leg, xs, ys);
    var m := MinOfOpts(cs);
    MinOfOptsIsMin(cs);
    if m.Some? {
      CandsFrom(leg, xs, ys, m);
    }
    forall x, y | x in xs && y in ys && leg(x, y) >= 0
      ensures m.Some? && m.value <= leg(x, y)
    {
      var i :| 0 <= i < |xs| && xs[i] == x;
      var j :| 0 <= j < |ys| && ys[j] == y;
      CandsHas(leg, xs, ys, i, j);
    }
  }

  /**
   * When the endpoints are in different groups, a non-negative transfer
   * value is the leg price between a member of each group, and no leg
   * between members below Integer.MAX_VALUE is cheaper; it is -1 only when
   * no pair of members has such a leg.
   */
  lemma GroupTransferIsCheapest(leg: (string, string) -> int, gs: seq<Group>, from: string, to: string, xs: seq<string>, ys: seq<string>)
    requires FindGroup(gs, from).Some? && FindGroup(gs, to).Some? && FindGroup(gs, from) != FindGroup(gs, to)
    requires xs == gs[FindGroup(gs, from).value].codes && ys == gs[FindGroup(gs, to).value].codes
    ensures GroupTransfer(leg, gs, from, to) >= -1
    ensures GroupTransfer(leg, gs, from, to) >= 0 ==>
              exists x, y :: x in xs && y in ys && leg(x, y) == GroupTransfer(leg, gs, from, to)
    ensures forall x, y :: x in xs && y in ys && 0 <= leg(x, y) < IntMax ==>
              0 <= GroupTransfer(leg, gs, from, to) <= leg(x, y)
  {
    CandsBest(leg, xs, ys);
  }

  /** The running best of the nested loops: Integer.MAX_VALUE until a smaller candidate is seen. */
  function RunningBest(cands: Option<int>): int
  {
    if cands.None? then IntMax else MF.Min(cands.value, IntMax)
  }

  lemma RowCandsStep(leg: (string, string) -> int, x: string, ys: seq<string>, j: nat)
    requires j < |ys|
    ensures RowCands(leg, x, ys[..j + 1]) == RowCands(leg, x, ys[..j]) + [AsCandidate(leg(x, ys[j]))]
  {
    assert ys[..j + 1][..j] == ys[..j];
  }

  lemma CandsStep(leg: (string, string) -> int, xs: seq<string>, ys: seq<string>, i: nat)
    requires i < |xs|
    ensures Cands(leg, xs[..i + 1], ys) == Cands(leg, xs[..i], ys) + RowCands(leg, xs[i], ys)
  {
    assert xs[..i + 1][..i] == xs[..i];
  }

  /** Folding one candidate into the running best keeps the smaller of the two. */
  lemma RunningBestStep(cs: seq<Option<int>>, c: Option<int>)
    ensures RunningBest(MinOfOpts(cs + [c])) == if c.Some? && c.value < RunningBest(MinOfOpts(cs)) then c.value else RunningBest(MinOfOpts(cs))
  {
    MinOfOptsSnoc(cs, c);
  }

  /** One pass of the inner loop: the start member x against every end member. */
  method ScanRow(net: Registry, x: string, ys: seq<string>, ghost before: seq<Option<int>>, best0: int) returns (best: int)
    requires best0 == RunningBest(MinOfOpts(before))
    ensures best == RunningBest(MinOfOpts(before + RowCands(LineLeg(net.fares), x, ys)))
  {
    ghost var leg := LineLeg(net.fares);
    best := best0;
    var j := 0;
    assert ys[..0] == [];
    assert before + RowCands(leg, x, ys[..0]) == before;
    while j < |ys|
      invariant 0 <= j <= |ys|
      invariant best == RunningBest(MinOfOpts(before + RowCands(leg, x, ys[..j])))
    {
      var fare2 := SumLineFare(net, x, ys[j]);
      ghost var prev := before + RowCands(leg, x, ys[..j]);
      ghost var c := AsCandidate(fare2);
      assert c == AsCandidate(leg(x, ys[j]));
      RowCandsStep(leg, x, ys, j);
      assert before + RowCands(leg, x, ys[..j + 1]) == prev + [c];
      RunningBestStep(prev, c);
      if fare2 >= 0 {
        var totalFare := 0 + fare2;
        if totalFare < best {
          best := totalFare;
        }
      }
      j := j + 1;
    }
    assert ys[..j] == ys;
  }

  /**
   * sumWithTransfer's search: for every start member and every end member
   * the same-line leg, keeping the cheapest below Integer.MAX_VALUE.
   */
  method ScanTransfers(net: Registry, xs: seq<string>, ys: seq<string>) returns (best: int)
    ensures best == RunningBest(MinOfOpts(Cands(LineLeg(net.fares), xs, ys)))
  {
    ghost var leg := LineLeg(net.fares);
    best := IntMax;
    var i := 0;
    while i < |xs|
      invariant 0 <= i <= |xs|
      invariant best == RunningBest(MinOfOpts(Cands(leg, xs[..i], ys)))
    {
      best := ScanRow(net, xs[i], ys, Cands(leg, xs[..i], ys), best);
      CandsStep(leg, xs, ys, i);
      i := i + 1;
    }
    assert xs[..i] == xs;
  }

  /** The final reading of the running best is the capped minimum. */
  lemma RunningBestCapped(m: Option<int>)
    ensures (if RunningBest(m) == IntMax then -1 else RunningBest(m)) == Capped(m)
  {
  }

  /** The transfer part of sumWithTransfer, on groups already built. */
  method GroupTransferOf(net: Registry, groups: seq<Group>, from: string, to: string) returns (r: int)
    ensures r == GroupTransfer(LineLeg(net.fares), groups, from, to)
  {
    if groups == [] {
      return -1;
    }
    var fromGroup := FindStationGroup(groups, from);
    var toGroup := FindStationGroup(groups, to);
    if fromGroup.None? || toGroup.None? {
      return -1;
    }
    if fromGroup.value == toGroup.value {
      return 0;
    }
    var best := ScanTransfers(net, groups[fromGroup.value].codes, groups[toGroup.value].codes);
    RunningBestCapped(MinOfOpts(Cands(LineLeg(net.fares), groups[fromGroup.value].codes, groups[toGroup.value].codes)));
    r := if best == IntMax then -1 else best;
  }

  /** sumWithTransfer: the groups are rebuilt from the registry on every call. */
  method SumWithTransfer(net: Registry, order: seq<Station>, from: string, to: string) returns (r: int)
    ensures r == TransferFare(net.fares, StationGroups(Snapshot(order)), from, to)
  {
    var directFare := SumLineFare(net, from, to);
    if directFare >= 0 {
      return directFare;
    }
    var groups := BuildStationGroups(order);
    r := GroupTransferOf(net, groups, from, to);
  }

  // ---------------------------------------------------------------
  // Entry points
  // ---------------------------------------------------------------

  /** calculateFare: -1 for an empty code, 0 for the same code, else the transfer value when non-negative, else -1. */
  function CalculateFare(fares: map<string, Fare>, gs: seq<Group>, from: string, to: string): int
  {
    if from == "" || to == "" then -1
    else if from == to then 0
    else
      var fare := TransferFare(fares, gs, from, to);
      if fare >= 0 then fare else -1
  }

  /**
   * The transfer value is never below -1; it is the same-line sum across a
   * shared prefix, and 0 between two members of one group off a common line.
   */
  lemma TransferFareSpec(fares: map<string, Fare>, gs: seq<Group>, from: string, to: string)
    ensures TransferFare(fares, gs, from, to) >= -1
    ensures ParseCode(from).prefix != "" && ParseCode(from).prefix == ParseCode(to).prefix ==>
              TransferFare(fares, gs, from, to) == LineFare(fares, from, to)
    ensures LineFare(fares, from, to) < 0 && FindGroup(gs, from).Some? && FindGroup(gs, from) == FindGroup(gs, to) ==>
              TransferFare(fares, gs, from, to) == 0
    ensures LineFare(fares, from, to) < 0 && (FindGroup(gs, from).None? || FindGroup(gs, to).None?) ==>
              TransferFare(fares, gs, from, to) == -1
  {
    LineFareSpec(fares, from, to);
    var fg, tg := FindGroup(gs, from), FindGroup(gs, to);
    if gs != [] && fg.Some? && tg.Some? && fg.value != tg.value {
      GroupTransferIsCheapest(LineLeg(fares), gs, from, to, gs[fg.value].codes, gs[tg.value].codes);
    }
  }

  /**
   * The fare is -1 for an empty code and 0 for equal codes; otherwise it is
   * the same-line sum whenever the codes share a line prefix, and never
   * below -1.
   */
  lemma CalculateFareSpec(fares: map<string, Fare>, gs: seq<Group>, from: string, to: string)
    ensures CalculateFare(fares, gs, from, to) >= -1
    ensures from == "" || to == "" ==> CalculateFare(fares, gs, from, to) == -1
    ensures from != "" && from == to ==> CalculateFare(fares, gs, from, to) == 0
    ensures from != "" && to != "" && from != to && ParseCode(from).prefix != "" && ParseCode(from).prefix == ParseCode(to).prefix ==>
              CalculateFare(fares, gs, from, to) == LineFare(fares, from, to)
  {
    LineFareSpec(fares, from, to);
    TransferFareSpec(fares, gs, from, to);
  }

  /** calculateFare, reading the registry and rebuilding the groups as the source does. */
  method CalculateFareOf(net: Registry, order: seq<Station>, from: string, to: string) returns (r: int)
    ensures r == CalculateFare(net.fares, StationGroups(Snapshot(order)), from, to)
  {
    if from == "" || to == "" {
      return -1;
    }
    if from == to {
      return 0;
    }
    var fare := SumWithTransfer(net, order, from, to);
    if fare >= 0 {
      return fare;
    }
    return -1;
  }

  /** An entry of the fare matrix: 0 on the diagonal, calculateFare elsewhere. */
  function MatrixEntry(fares: map<string, Fare>, gs: seq<Group>, codes: seq<string>, i: nat, j: nat): int
    requires i < |codes| && j < |codes|
  {
    if i == j then 0 else CalculateFare(fares, gs, codes[i], codes[j])
  }

  /** One cell of generateFareMatrix's loop. */
  method ComputeEntry(net: Registry, order: seq<Station>, codes: seq<string>, i: nat, j: nat) returns (v: int)
    requires i < |codes| && j < |codes|
    ensures v == MatrixEntry(net.fares, StationGroups(Snapshot(order)), codes, i, j)
  {
    if i == j {
      return 0;
    }
    var fare := CalculateFareOf(net, order, codes[i], codes[j]);
    v := if fare >= 0 then fare else -1;
  }

  /** Row i of generateFareMatrix's loop, computed cell by cell. */
  method ComputeRow(net: Registry, order: seq<Station>, codes: seq<string>, i: nat) returns (row: seq<int>)
    requires i < |codes|
    ensures |row| == |codes|
    ensures forall q :: 0 <= q < |codes| ==> row[q] == MatrixEntry(net.fares, StationGroups(Snapshot(order)), codes, i, q)
  {
    ghost var fares, gs := net.fares, StationGroups(Snapshot(order));
    row := [];
    var j := 0;
    while j < |codes|
      invariant 0 <= j <= |codes| && |row| == j && row == RowPrefix(fares, gs, codes, i, j)
    {
      var v := ComputeEntry(net, order, codes, i, j);
      row := row + [v];
      j := j + 1;
    }
    forall q | 0 <= q < |codes|
      ensures row[q] == MatrixEntry(fares, gs, codes, i, q)
    {
      RowPrefixAt(fares, gs, codes, i, |codes|, q);
    }
  }

  /** The first n entries of row i of the fare matrix. */
  ghost function RowPrefix(fares: map<string, Fare>, gs: seq<Group>, codes: seq<string>, i: nat, n: nat): seq<int>
    requires i < |codes| && n <= |codes|
  {
    if n == 0 then [] else RowPrefix(fares, gs, codes, i, n - 1) + [MatrixEntry(fares, gs, codes, i, n - 1)]
  }

  lemma {:induction false} RowPrefixAt(fares: map<string, Fare>, gs: seq<Group>, codes: seq<string>, i: nat, n: nat, q: nat)
    requires i < |codes| && q < n <= |codes|
    ensures |RowPrefix(fares, gs, codes, i, n)| == n && RowPrefix(fares, gs, codes, i, n)[q] == MatrixEntry(fares, gs, codes, i, q)
  {
    if q < n - 1 {
      RowPrefixAt(fares, gs, codes, i, n - 1, q);
    } else {
      RowPrefixLength(fares, gs, codes, i, n - 1);
    }
  }

  lemma {:induction false} RowPrefixLength(fares: map<string, Fare>, gs: seq<Group>, codes: seq<string>, i: nat, n: nat)
    requires i < |codes| && n <= |codes|
    ensures |RowPrefix(fares, gs, codes, i, n)| == n
  {
    if n > 0 {
      RowPrefixLength(fares, gs, codes, i, n - 1);
    }
  }

  /** Stores a computed row into row i of the matrix and leaves the other rows alone. */
  method StoreRow(matrix: array2<int>, i: nat, row: seq<int>)
    requires i < matrix.Length0 && |row| == matrix.Length1
    modifies matrix
    ensures forall q :: 0 <= q < |row| ==> matrix[i, q] == row[q]
    ensures forall p, q :: 0 <= p < matrix.Length0 && 0 <= q < matrix.Length1 && p != i ==> matrix[p, q] == old(matrix[p, q])
  {
    var j := 0;
    while j < |row|
      invariant 0 <= j <= |row|
      invariant forall q :: 0 <= q < j ==> matrix[i, q] == row[q]
      invariant forall p, q :: 0 <= p < matrix.Length0 && 0 <= q < matrix.Length1 && p != i ==> matrix[p, q] == old(matrix[p, q])
    {
      matrix[i, j] := row[j];
      j := j + 1;
    }
  }

  /**
   * generateFareMatrix: an n-by-n table with 0 on the diagonal and, off it,
   * calculateFare between the two codes.
   */
  method GenerateFareMatrix(net: Registry, order: seq<Station>, codes: seq<string>) returns (matrix: array2<int>)
    ensures fresh(matrix)
    ensures matrix.Length0 == |codes| && matrix.Length1 == |codes|
    ensures forall i, j :: 0 <= i < |codes| && 0 <= j < |codes| ==> matrix[i, j] == MatrixEntry(net.fares, StationGroups(Snapshot(order)), codes, i, j)
  {
    ghost var fares, gs := net.fares, StationGroups(Snapshot(order));
    matrix := new int[|codes|, |codes|];
    var i := 0;
    while i < |codes|
      invariant 0 <= i <= |codes| && fares == net.fares
      invariant forall p, q :: 0 <= p < i && 0 <= q < |codes| ==> matrix[p, q] == MatrixEntry(fares, gs, codes, p, q)
    {
      var row := ComputeRow(net, order, codes, i);
      assert forall q :: 0 <= q < |codes| ==> row[q] == MatrixEntry(fares, gs, codes, i, q);
      StoreRow(matrix, i, row);
      i := i + 1;
    }
    assert gs == StationGroups(Snapshot(order)) && fares == net.fares;
  }

  /** Every matrix entry is a fare or -1, symmetric under swapping the codes whenever they share a line. */
  lemma MatrixEntrySpec(fares: map<string, Fare>, gs: seq<Group>, codes: seq<string>, i: nat, j: nat)
    requires i < |codes| && j < |codes|
    ensures MatrixEntry(fares, gs, codes, i, j) >= -1
    ensures codes[i] == "" && i != j ==> MatrixEntry(fares, gs, codes, i, j) == -1
    ensures codes[i] == codes[j] && codes[i] != "" ==> MatrixEntry(fares, gs, codes, i, j) == 0
    ensures i != j && codes[i] != codes[j] && codes[j] != "" && ParseCode(codes[i]).prefix != "" && ParseCode(codes[i]).prefix == ParseCode(codes[j]).prefix ==>
              MatrixEntry(fares, gs, codes, i, j) == MatrixEntry(fares, gs, codes, j, i) == LineFare(fares, codes[i], codes[j])
  {
    CalculateFareSpec(fares, gs, codes[i], codes[j]);
    CalculateFareSpec(fares, gs, codes[j], codes[i]);
    LineFareSpec(fares, codes[i], codes[j]);
  }

  // ---------------------------------------------------------------
  // Data validation
  // ---------------------------------------------------------------

  /** validateFareData's findings. */
  datatype FareError = MissingAdjacentFare(code: string, nextCode: string) | NoStationGroups

  /** The next code on a station's line: String.format("%s-%02d", prefix, num + 1). */
  function NextCode(code: string): string
  {
    var parsed := ParseCode(code);
    MF.SynthCode(parsed.prefix, parsed.num + 1)
  }

  /** The stations, in order, whose next code is a registered station with no segment price to it. */
  function MissingFares(fares: map<string, Fare>, registered: set<string>, ss: seq<StationNames>): seq<FareError>
  {
    Flagged(c => LacksNextFare(fares, registered, c), NextCode, ss)
  }

  /** One MissingAdjacentFare per listed station the test picks, in list order. */
  function Flagged(lacks: string -> bool, next: string -> string, ss: seq<StationNames>): seq<FareError>
  {
    if ss == [] then []
    else
      var code := ss[|ss| - 1].code;
      Flagged(lacks, next, ss[..|ss| - 1]) + (if lacks(code) then [MissingAdjacentFare(code, next(code))] else [])
  }

  /** A station on a line whose successor is registered but has no positive segment price to it. */
  predicate LacksNextFare(fares: map<string, Fare>, registered: set<string>, code: string)
  {
    ParseCode(code).prefix != "" && NextCode(code) in registered && SegFare(fares, code, NextCode(code)) == 0
  }

  /**
   * One error per station, at most, and each names a station with a line
   * prefix whose registered successor lacks a positive segment price;
   * every such station is reported.
   */
  lemma MissingFaresSpec(fares: map<string, Fare>, registered: set<string>, ss: seq<StationNames>)
    ensures |MissingFares(fares, registered, ss)| <= |ss|
    ensures forall e :: e in MissingFares(fares, registered, ss) ==>
              e.MissingAdjacentFare? && (exists i :: 0 <= i < |ss| && ss[i].code == e.code)
              && LacksNextFare(fares, registered, e.code) && e.nextCode == NextCode(e.code)
    ensures forall i :: 0 <= i < |ss| && LacksNextFare(fares, registered, ss[i].code) ==>
              MissingAdjacentFare(ss[i].code, NextCode(ss[i].code)) in MissingFares(fares, registered, ss)
  {
    var lacks := c => LacksNextFare(fares, registered, c);
    var next := NextCode;
    FlaggedSound(lacks, next, ss);
    forall i | 0 <= i < |ss| && LacksNextFare(fares, registered, ss[i].code)
      ensures MissingAdjacentFare(ss[i].code, NextCode(ss[i].code)) in MissingFares(fares, registered, ss)
    {
      assert lacks(ss[i].code);
      FlaggedComplete(lacks, next, ss, i);
    }
  }

  /** At most one error per station, each for a listed station the test picks. */
  lemma {:induction false} FlaggedSound(lacks: string -> bool, next: string -> string, ss: seq<StationNames>)
    ensures |Flagged(lacks, next, ss)| <= |ss|
    ensures forall e :: e in Flagged(lacks, next, ss) ==>
              e.MissingAdjacentFare? && (exists i :: 0 <= i < |ss| && ss[i].code == e.code)
              && lacks(e.code) && e.nextCode == next(e.code)
  {
    if ss != [] {
      var init := ss[..|ss| - 1];
      var last := ss[|ss| - 1].code;
      var tail := if lacks(last) then [MissingAdjacentFare(last, next(last))] else [];
      assert Flagged(lacks, next, ss) == Flagged(lacks, next, init) + tail;
      FlaggedSound(lacks, next, init);
      forall e | e in Flagged(lacks, next, ss)
        ensures exists i :: 0 <= i < |ss| && ss[i].code == e.code
      {
        if e in tail {
          assert ss[|ss| - 1].code == e.code;
        } else {
          var i :| 0 <= i < |init| && init[i].code == e.code;
          assert ss[i].code == e.code;
        }
      }
    }
  }

  /** The station at i is reported when the test picks it. */
  lemma {:induction false} FlaggedComplete(lacks: string -> bool, next: string -> string, ss: seq<StationNames>, i: nat)
    requires i < |ss| && lacks(ss[i].code)
    ensures MissingAdjacentFare(ss[i].code, next(ss[i].code)) in Flagged(lacks, next, ss)
  {
    var init := ss[..|ss| - 1];
    var last := ss[|ss| - 1].code;
    var tail := if lacks(last) then [MissingAdjacentFare(last, next(last))] else [];
    assert Flagged(lacks, next, ss) == Flagged(lacks, next, init) + tail;
    if i < |init| {
      assert init[i] == ss[i];
      FlaggedComplete(lacks, next, init, i);
    }
  }

  /** The errors of a longer prefix of the registry: those of the shorter one and then the next station's. */
  lemma MissingFaresStep(fares: map<string, Fare>, registered: set<string>, ss: seq<StationNames>, i: nat)
    requires i < |ss|
    ensures MissingFares(fares, registered, ss[..i + 1]) == MissingFares(fares, registered, ss[..i])
              + (if LacksNextFare(fares, registered, ss[i].code) then [MissingAdjacentFare(ss[i].code, NextCode(ss[i].code))] else [])
  {
    assert ss[..i + 1][..i] == ss[..i];
  }

  /**
   * validateFareData: the missing adjacent fares in registry order, then one
   * more error when there are no same-name groups at all.
   */
  method ValidateFareData(net: Registry, order: seq<Station>) returns (errors: seq<FareError>)
    ensures errors == MissingFares(net.fares, net.stations.Keys, Snapshot(order))
                      + (if StationGroups(Snapshot(order)) == [] then [NoStationGroups] else [])
  {
    ghost var ss := Snapshot(order);
    errors := [];
    var i := 0;
    while i < |order|
      invariant 0 <= i <= |order|
      invariant errors == MissingFares(net.fares, net.stations.Keys, ss[..i])
    {
      var code := order[i].code;
      MissingFaresStep(net.fares, net.stations.Keys, ss, i);
      var parsed := ParseCode(code);
      var missing := false;
      var nextCode := MF.SynthCode(parsed.prefix, parsed.num + 1);
      if parsed.prefix != "" {
        if nextCode in net.stations {
          var fare := SegFare(net.fares, code, nextCode);
          if fare == 0 {
            missing := true;
          }
        }
      }
      assert nextCode == NextCode(code);
      assert missing == LacksNextFare(net.fares, net.stations.Keys, code);
      if missing {
        errors := errors + [MissingAdjacentFare(code, nextCode)];
      }
      i := i + 1;
    }
    assert ss[..i] == ss;
    var groups := BuildStationGroups(order);
    if groups == [] {
      errors := errors + [NoStationGroups];
    }
  }
}
