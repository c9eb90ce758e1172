/**
 * The fare chart grid shared by both web pages (main.js renderFareCharts and
 * console.js renderFareTable): stations sorted by code, grouped by name key
 * into display groups, groups sorted by their first code, each off-diagonal
 * cell the cheapest fare over member pairs, the largest fare for colour
 * scaling, and up to three line colours per cell.
 *
 * The grid is written once over the page's price function `bf` and colour
 * function `colors`, which each page passes in as a function value, as the
 * page's closures are.
 */
module FareGrid {
  import opened Wrappers
  import opened Text
  import opened MainFares

  // ---------------------------------------------------------------
  // Ordering (localeCompare, taken as code-point lexicographic order)
  // ---------------------------------------------------------------

    /** key is sorted ascending along s. */
  predicate SortedBy<T>(s: seq<T>, key: T -> string)
  {
    forall i :: 0 < i < |s| ==> LexLe(key(s[i - 1]), key(s[i]))
  }

  /** Insert x after every leading element that sorts with or before it (the stable position). */
  function Insert<T>(x: T, s: seq<T>, key: T -> string): seq<T>
  {
    if s == [] then [x]
    else if !LexLe(key(s[0]), key(x)) then [x] + s
    else [s[0]] + Insert(x, s[1..], key)
  }

  /** Array.prototype.sort with a key comparator: a stable sort, here as insertion sort. */
  function SortBy<T>(s: seq<T>, key: T -> string): seq<T>
  {
    if s == [] then [] else Insert(s[|s| - 1], SortBy(s[..|s| - 1], key), key)
  }

  lemma {:induction false} InsertPerm<T>(x: T, s: seq<T>, key: T -> string)
    ensures multiset(Insert(x, s, key)) == multiset(s) + multiset{x}
  {
    if s != [] && LexLe(key(s[0]), key(x)) {
      InsertPerm(x, s[1..], key);
      assert s == [s[0]] + s[1..];
      assert multiset([s[0]] + Insert(x, s[1..], key)) == multiset{s[0]} + multiset(Insert(x, s[1..], key));
    }
  }

  lemma {:induction false} InsertSorted<T>(x: T, s: seq<T>, key: T -> string)
    requires SortedBy(s, key)
    ensures SortedBy(Insert(x, s, key), key)
    ensures |Insert(x, s, key)| == |s| + 1
    ensures Insert(x, s, key)[0] == x || Insert(x, s, key)[0] == s[0]
  {
    if s == [] {
    } else if !LexLe(key(s[0]), key(x)) {
      LexLeTotal(key(s[0]), key(x));
      var r := [x] + s;
      forall i | 0 < i < |r|
        ensures LexLe(key(r[i - 1]), key(r[i]))
      {
        if i > 1 {
          assert r[i - 1] == s[i - 2] && r[i] == s[i - 1];
        }
      }
    } else {
      var tail := s[1..];
      assert SortedBy(tail, key) by {
        forall i | 0 < i < |tail|
          ensures LexLe(key(tail[i - 1]), key(tail[i]))
        {
          assert tail[i - 1] == s[i] && tail[i] == s[i + 1];
        }
      }
      InsertSorted(x, tail, key);
      var t := Insert(x, tail, key);
      var r := [s[0]] + t;
      assert LexLe(key(s[0]), key(t[0])) by {
        if t[0] != x {
          assert t[0] == s[1];
        }
      }
      forall i | 0 < i < |r|
        ensures LexLe(key(r[i - 1]), key(r[i]))
      {
        if i > 1 {
          assert r[i - 1] == t[i - 2] && r[i] == t[i - 1];
        }
      }
    }
  }

  /** The sort orders by key and only rearranges. */
  lemma {:induction false} SortByCorrect<T>(s: seq<T>, key: T -> string)
    ensures SortedBy(SortBy(s, key), key)
    ensures multiset(SortBy(s, key)) == multiset(s)
  {
    if s != [] {
      var init := s[..|s| - 1];
      SortByCorrect(init, key);
      InsertSorted(s[|s| - 1], SortBy(init, key), key);
      InsertPerm(s[|s| - 1], SortBy(init, key), key);
      assert s == init + [s[|s| - 1]];
    }
  }

  // ---------------------------------------------------------------
  // Display groups
  // ---------------------------------------------------------------

  /** A display station: the name key, the first member's names, and the member codes in order. */
  datatype DisplayGroup = DisplayGroup(key: string, name: string, enName: string, codes: seq<string>)

  /** `(a.code||'')`: the sort key of a station. */
  function CodeOf(s: JsStation): string { s.code }

  /** `(a.codes[0]||'')`: the sort key of a display group. */
  function FirstCode(g: DisplayGroup): string { if g.codes == [] then "" else g.codes[0] }

  /** The index of the group with key k, or |gs| when there is none. */
  function FindGroup(gs: seq<DisplayGroup>, k: string): (i: nat)
    ensures i <= |gs|
    ensures i < |gs| ==> gs[i].key == k
    ensures i == |gs| ==> forall j :: 0 <= j < |gs| ==> gs[j].key != k
  {
    if gs == [] then 0
    else if gs[0].key == k then 0
    else 1 + FindGroup(gs[1..], k)
  }

  /** `(groupMap[k] ||= {..}).codes.push(s.code)`, for the key k of station s. */
  function AddStation(gs: seq<DisplayGroup>, k: string, s: JsStation): seq<DisplayGroup>
  {
    var i := FindGroup(gs, k);
    if i < |gs| then gs[i := gs[i].(codes := gs[i].codes + [s.code])]
    else gs + [DisplayGroup(k, s.name, s.enName, [s.code])]
  }

  /**
   * The groups of the stations by keyOf, in first-seen order (Object.values
   * keeps insertion order for keys that are never array indices, and a name
   * key always holds '|').
   */
  function GroupStations(ss: seq<JsStation>, keyOf: JsStation -> string): seq<DisplayGroup>
  {
    if ss == [] then [] else AddStation(GroupStations(ss[..|ss| - 1], keyOf), keyOf(ss[|ss| - 1]), ss[|ss| - 1])
  }

  /** The codes of the stations with key k, in order. */
  function CodesWithKey(ss: seq<JsStation>, keyOf: JsStation -> string, k: string): seq<string>
  {
    if ss == [] then []
    else CodesWithKey(ss[..|ss| - 1], keyOf, k) + (if keyOf(ss[|ss| - 1]) == k then [ss[|ss| - 1].code] else [])
  }

  predicate KeysDistinct(gs: seq<DisplayGroup>)
  {
    forall i, j :: 0 <= i < j < |gs| ==> gs[i].key != gs[j].key
  }

  /** gs groups the stations ss by keyOf exactly: distinct keys, the right members, and a group for every key that occurs. */
  ghost predicate ExactGroups(gs: seq<DisplayGroup>, ss: seq<JsStation>, keyOf: JsStation -> string)
  {
    && KeysDistinct(gs)
    && (forall i :: 0 <= i < |gs| ==> gs[i].codes == CodesWithKey(ss, keyOf, gs[i].key))
    && (forall k :: FindGroup(gs, k) < |gs| <==> CodesWithKey(ss, keyOf, k) != [])
  }

  lemma CodesWithKeySnoc(ss: seq<JsStation>, keyOf: JsStation -> string, s: JsStation, k: string)
    ensures CodesWithKey(ss + [s], keyOf, k) == CodesWithKey(ss, keyOf, k) + (if keyOf(s) == k then [s.code] else [])
  {
    assert (ss + [s])[..|ss|] == ss;
  }

  lemma AddStationDistinct(gs: seq<DisplayGroup>, k: string, s: JsStation)
    requires KeysDistinct(gs)
    ensures KeysDistinct(AddStation(gs, k, s))
  {
  }

  lemma AddStationCodes(gs: seq<DisplayGroup>, ss: seq<JsStation>, keyOf: JsStation -> string, s: JsStation)
    requires ExactGroups(gs, ss, keyOf)
    ensures forall i :: 0 <= i < |AddStation(gs, keyOf(s), s)| ==>
              AddStation(gs, keyOf(s), s)[i].codes == CodesWithKey(ss + [s], keyOf, AddStation(gs, keyOf(s), s)[i].key)
  {
    var k := keyOf(s);
    var gs' := AddStation(gs, k, s);
    forall i | 0 <= i < |gs'|
      ensures gs'[i].codes == CodesWithKey(ss + [s], keyOf, gs'[i].key)
    {
      CodesWithKeySnoc(ss, keyOf, s, gs'[i].key);
    }
  }

  lemma AddStationFind(gs: seq<DisplayGroup>, ss: seq<JsStation>, keyOf: JsStation -> string, s: JsStation)
    requires ExactGroups(gs, ss, keyOf)
    ensures forall k' :: FindGroup(AddStation(gs, keyOf(s), s), k') < |AddStation(gs, keyOf(s), s)| <==> CodesWithKey(ss + [s], keyOf, k') != []
  {
    var k := keyOf(s);
    var gs' := AddStation(gs, k, s);
    forall k' ensures FindGroup(gs', k') < |gs'| <==> CodesWithKey(ss + [s], keyOf, k') != []
    {
      CodesWithKeySnoc(ss, keyOf, s, k');
      if k' != k {
        if FindGroup(gs, k') < |gs| {
          assert gs'[FindGroup(gs, k')].key == k';
        }
        if FindGroup(gs', k') < |gs'| {
          assert gs[FindGroup(gs', k')].key == k';
        }
      } else {
        assert gs'[if FindGroup(gs, k) < |gs| then FindGroup(gs, k) else |gs|].key == k;
      }
    }
  }

  /**
   * Grouping is exact: one group per key that occurs, no key twice, and
   * each group holds the codes of exactly the stations with its key, in
   * input order.
   */
  lemma {:induction false} GroupStationsExact(ss: seq<JsStation>, keyOf: JsStation -> string)
    ensures ExactGroups(GroupStations(ss, keyOf), ss, keyOf)
  {
    if ss != [] {
      var init, s := ss[..|ss| - 1], ss[|ss| - 1];
      GroupStationsExact(init, keyOf);
      var gs := GroupStations(init, keyOf);
      AddStationDistinct(gs, keyOf(s), s);
      AddStationCodes(gs, init, keyOf, s);
      AddStationFind(gs, init, keyOf, s);
      assert init + [s] == ss;
    }
  }

  lemma {:induction false} CodesWithKeyHas(ss: seq<JsStation>, keyOf: JsStation -> string, n: nat)
    requires n < |ss|
    ensures ss[n].code in CodesWithKey(ss, keyOf, keyOf(ss[n]))
  {
    if n < |ss| - 1 {
      CodesWithKeyHas(ss[..|ss| - 1], keyOf, n);
    }
  }

  /** Every station's key has a group, and its code is a member of that group. */
  lemma StationInItsGroup(ss: seq<JsStation>, keyOf: JsStation -> string, n: nat)
    requires n < |ss|
    ensures FindGroup(GroupStations(ss, keyOf), keyOf(ss[n])) < |GroupStations(ss, keyOf)|
    ensures ss[n].code in GroupStations(ss, keyOf)[FindGroup(GroupStations(ss, keyOf), keyOf(ss[n]))].codes
  {
    GroupStationsExact(ss, keyOf);
    CodesWithKeyHas(ss, keyOf, n);
  }

  /** The grouping loops (main.js 816-821 and 914-919, console.js 456-461): one pass filling the key map. */
  method GroupByKey(ss: seq<JsStation>, keyOf: JsStation -> string) returns (gs: seq<DisplayGroup>)
    ensures gs == GroupStations(ss, keyOf)
  {
    gs := [];
    for n := 0 to |ss|
      invariant gs == GroupStations(ss[..n], keyOf)
    {
      assert ss[..n + 1][..n] == ss[..n];
      var s := ss[n];
      var k := keyOf(s);
      var i := FindGroup(gs, k);
      if i < |gs| {
        gs := gs[i := gs[i].(codes := gs[i].codes + [s.code])];
      } else {
        gs := gs + [DisplayGroup(k, s.name, s.enName, [s.code])];
      }
    }
    assert ss[..|ss|] == ss;
  }

  /** The display groups: stations sorted by code, grouped by name key, then groups sorted by first code. */
  function DisplayGroups(stations: seq<JsStation>): seq<DisplayGroup>
  {
    SortBy(GroupStations(SortBy(stations, CodeOf), NameKey), FirstCode)
  }

  /** Display groups are ordered by first code, and are the name-key groups of the code-sorted stations, rearranged. */
  lemma DisplayGroupsExact(stations: seq<JsStation>)
    ensures SortedBy(DisplayGroups(stations), FirstCode)
    ensures multiset(DisplayGroups(stations)) == multiset(GroupStations(SortBy(stations, CodeOf), NameKey))
    ensures forall g :: g in DisplayGroups(stations) ==> g.codes == CodesWithKey(SortBy(stations, CodeOf), NameKey, g.key)
  {
    var sorted := SortBy(stations, CodeOf);
    var gs := GroupStations(sorted, NameKey);
    GroupStationsExact(sorted, NameKey);
    SortByCorrect(gs, FirstCode);
    var dg := SortBy(gs, FirstCode);
    forall g | g in dg
      ensures g.codes == CodesWithKey(sorted, NameKey, g.key)
    {
      assert g in multiset(dg);
      assert g in multiset(gs);
    }
  }

  /** The transfer groups of main.js (914-920): same grouping over the unsorted stations, keeping groups of two or more. */
  function TransferGroups(gs: seq<DisplayGroup>): (r: seq<seq<string>>)
    ensures forall g :: g in r ==> |g| > 1
  {
    if gs == [] then []
    else TransferGroups(gs[..|gs| - 1]) + (if |gs[|gs| - 1].codes| > 1 then [gs[|gs| - 1].codes] else [])
  }

  /** Each transfer group is the full list of codes of one name key, and no group of two or more is dropped. */
  lemma {:induction false} TransferGroupsExact(gs: seq<DisplayGroup>)
    ensures forall g :: g in TransferGroups(gs) ==> exists i :: 0 <= i < |gs| && gs[i].codes == g
    ensures forall i :: 0 <= i < |gs| && |gs[i].codes| > 1 ==> gs[i].codes in TransferGroups(gs)
  {
    if gs != [] {
      TransferGroupsExact(gs[..|gs| - 1]);
    }
  }

  // ---------------------------------------------------------------
  // Grid cells: the cheapest fare over member pairs
  // ---------------------------------------------------------------

  /** bf(a, b) for each b of cb, in loop order. */
  function PairRow(bf: (string, string) -> Option<int>, a: string, cb: seq<string>): (r: seq<Option<int>>)
    ensures |r| == |cb| && forall j :: 0 <= j < |cb| ==> r[j] == bf(a, cb[j])
  {
    seq(|cb|, j requires 0 <= j < |cb| => bf(a, cb[j]))
  }

  /** bf over the pairs (ca[i], cb[j]) for i < n, in loop order. */
  function CellVals(bf: (string, string) -> Option<int>, ca: seq<string>, cb: seq<string>, n: nat): seq<Option<int>>
    requires n <= |ca|
  {
    if n == 0 then [] else CellVals(bf, ca, cb, n - 1) + PairRow(bf, ca[n - 1], cb)
  }

  lemma {:induction false} CellValsHas(bf: (string, string) -> Option<int>, ca: seq<string>, cb: seq<string>, n: nat, i: nat, j: nat)
    requires n <= |ca| && i < n && j < |cb|
    ensures bf(ca[i], cb[j]) in CellVals(bf, ca, cb, n)
  {
    var row := PairRow(bf, ca[n - 1], cb);
    assert CellVals(bf, ca, cb, n) == CellVals(bf, ca, cb, n - 1) + row;
    if i < n - 1 {
      CellValsHas(bf, ca, cb, n - 1, i, j);
    } else {
      assert row[j] == bf(ca[i], cb[j]);
    }
  }

  lemma {:induction false} CellValsFrom(bf: (string, string) -> Option<int>, ca: seq<string>, cb: seq<string>, n: nat, x: Option<int>)
    returns (i: nat, j: nat)
    requires n <= |ca| && x in CellVals(bf, ca, cb, n)
    ensures i < n && j < |cb| && bf(ca[i], cb[j]) == x
  {
    var row := PairRow(bf, ca[n - 1], cb);
    assert CellVals(bf, ca, cb, n) == CellVals(bf, ca, cb, n - 1) + row;
    if x in CellVals(bf, ca, cb, n - 1) {
      i, j := CellValsFrom(bf, ca, cb, n - 1, x);
    } else {
      i := n - 1;
      j :| 0 <= j < |row| && row[j] == x;
    }
  }

  /** The value of an off-diagonal cell. */
  function CellMin(bf: (string, string) -> Option<int>, ca: seq<string>, cb: seq<string>): Option<int>
  {
    MinOfOpts(CellVals(bf, ca, cb, |ca|))
  }

  /** A cell is empty exactly when no member pair has a fare, and otherwise shows the cheapest member-pair fare. */
  lemma CellMinIsCheapest(bf: (string, string) -> Option<int>, ca: seq<string>, cb: seq<string>)
    ensures CellMin(bf, ca, cb).None? <==> forall i, j :: 0 <= i < |ca| && 0 <= j < |cb| ==> bf(ca[i], cb[j]).None?
    ensures CellMin(bf, ca, cb).Some? ==>
      (exists i, j :: 0 <= i < |ca| && 0 <= j < |cb| && bf(ca[i], cb[j]) == CellMin(bf, ca, cb))
      && forall i, j :: 0 <= i < |ca| && 0 <= j < |cb| && bf(ca[i], cb[j]).Some? ==> CellMin(bf, ca, cb).value <= bf(ca[i], cb[j]).value
  {
    var vals := CellVals(bf, ca, cb, |ca|);
    MinOfOptsIsMin(vals);
    forall i, j | 0 <= i < |ca| && 0 <= j < |cb|
      ensures bf(ca[i], cb[j]) in vals
    {
      CellValsHas(bf, ca, cb, |ca|, i, j);
    }
    if CellMin(bf, ca, cb).Some? {
      var i, j := CellValsFrom(bf, ca, cb, |ca|, CellMin(bf, ca, cb));
    } else {
      forall i, j | 0 <= i < |ca| && 0 <= j < |cb|
        ensures bf(ca[i], cb[j]).None?
      {
        var k :| 0 <= k < |vals| && vals[k] == bf(ca[i], cb[j]);
      }
    }
  }

  /** With a symmetric price, the cell for (A, B) equals the cell for (B, A). */
  lemma CellSymmetric(bf: (string, string) -> Option<int>, ca: seq<string>, cb: seq<string>)
    requires forall a, b :: bf(a, b) == bf(b, a)
    ensures CellMin(bf, ca, cb) == CellMin(bf, cb, ca)
  {
    var s, t := CellVals(bf, ca, cb, |ca|), CellVals(bf, cb, ca, |cb|);
    forall x | x in s && x.Some?
      ensures x in t
    {
      var i, j := CellValsFrom(bf, ca, cb, |ca|, x);
      CellValsHas(bf, cb, ca, |cb|, j, i);
    }
    forall x | x in t && x.Some?
      ensures x in s
    {
      var j, i := CellValsFrom(bf, cb, ca, |cb|, x);
      CellValsHas(bf, ca, cb, |ca|, i, j);
    }
    MinOfOptsSameValues(s, t);
  }

  /** One more pair row folded into the running minimum. */
  lemma PairRowStep(bf: (string, string) -> Option<int>, a: string, cb: seq<string>, before: seq<Option<int>>, j: nat)
    requires j < |cb|
    ensures MinOfOpts(before + PairRow(bf, a, cb)[..j + 1]) == MinOpt(MinOfOpts(before + PairRow(bf, a, cb)[..j]), bf(a, cb[j]))
    ensures MaxOfOpts(before + PairRow(bf, a, cb)[..j + 1]) == MaxOpt(MaxOfOpts(before + PairRow(bf, a, cb)[..j]), bf(a, cb[j]))
  {
    var row := PairRow(bf, a, cb);
    assert before + row[..j + 1] == (before + row[..j]) + [bf(a, cb[j])];
    MinOfOptsSnoc(before + row[..j], bf(a, cb[j]));
    assert (before + row[..j + 1])[..|before + row[..j]|] == before + row[..j];
  }

  /** `if (v != null) best = (best == null ? v : Math.min(best, v))` is MinOpt. */
  lemma KeepMin(best: Option<int>, v: Option<int>)
    ensures MinOpt(best, v) == if v.None? then best else if best.None? then v else Some(Min(best.value, v.value))
  {
  }

  /** `if (v != null) best = (best == null ? v : Math.max(best, v))` is MaxOpt. */
  lemma KeepMax(best: Option<int>, v: Option<int>)
    ensures MaxOpt(best, v) == if v.None? then best else if best.None? then v else Some(Max(best.value, v.value))
  {
  }

  /** The inner loop over b of gb.codes for one a, folding the running minimum. */
  method RowMin(bf: (string, string) -> Option<int>, a: string, cb: seq<string>, best0: Option<int>, ghost before: seq<Option<int>>)
    returns (best: Option<int>)
    requires best0 == MinOfOpts(before)
    ensures best == MinOfOpts(before + PairRow(bf, a, cb))
  {
    ghost var row := PairRow(bf, a, cb);
    best := best0;
    assert before + row[..0] == before;
    for j := 0 to |cb|
      invariant best == MinOfOpts(before + row[..j])
    {
      PairRowStep(bf, a, cb, before, j);
      var v := bf(a, cb[j]);
      KeepMin(best, v);
      if v.Some? {
        best := if best.None? then v else Some(Min(best.value, v.value));
      }
    }
    assert row[..|cb|] == row;
  }

  /** A grid cell (main.js 1134-1143, console.js 520-527): the running minimum over all member pairs. */
  method GridCell(bf: (string, string) -> Option<int>, ca: seq<string>, cb: seq<string>) returns (best: Option<int>)
    ensures best == CellMin(bf, ca, cb)
  {
    best := None;
    for i := 0 to |ca|
      invariant best == MinOfOpts(CellVals(bf, ca, cb, i))
    {
      best := RowMin(bf, ca[i], cb, best, CellVals(bf, ca, cb, i));
    }
  }

  // ---------------------------------------------------------------
  // The largest fare (computeMax / maxFare), used to scale colours
  // ---------------------------------------------------------------

  /** The largest member-pair fare of a cell, or None. */
  function CellMax(bf: (string, string) -> Option<int>, ca: seq<string>, cb: seq<string>): Option<int>
  {
    MaxOfOpts(CellVals(bf, ca, cb, |ca|))
  }

  /** cell(i, j) for the columns j < m of row i, skipping the diagonal. */
  function OffRow(cell: (int, int) -> Option<int>, i: nat, m: nat): seq<Option<int>>
  {
    if m == 0 then []
    else OffRow(cell, i, m - 1) + (if m - 1 == i then [] else [cell(i, m - 1)])
  }

  /** The off-diagonal cells of rows 0 .. n-1 of a size x size grid, in loop order. */
  function OffDiag(cell: (int, int) -> Option<int>, size: nat, n: nat): seq<Option<int>>
  {
    if n == 0 then [] else OffDiag(cell, size, n - 1) + OffRow(cell, n - 1, size)
  }

  /** The largest member-pair fare of each pair of groups. */
  function CellMaxes(bf: (string, string) -> Option<int>, gs: seq<seq<string>>): (int, int) -> Option<int>
  {
    (i, j) => if 0 <= i < |gs| && 0 <= j < |gs| then CellMax(bf, gs[i], gs[j]) else None
  }

  /** `maxV` starts at 1 and only grows. */
  function AtLeast1(v: Option<int>): int
  {
    if v.None? then 1 else Max(1, v.value)
  }

  /** The value computeMax returns. */
  function MaxFare(bf: (string, string) -> Option<int>, gs: seq<seq<string>>): int
  {
    AtLeast1(MaxOfOpts(OffDiag(CellMaxes(bf, gs), |gs|, |gs|)))
  }

  lemma {:induction false} OffRowFrom(cell: (int, int) -> Option<int>, i: nat, m: nat, x: Option<int>) returns (j: nat)
    requires x in OffRow(cell, i, m)
    ensures j < m && j != i && cell(i, j) == x
    decreases m
  {
    if x in OffRow(cell, i, m - 1) {
      j := OffRowFrom(cell, i, m - 1, x);
    } else {
      j := m - 1;
    }
  }

  lemma {:induction false} OffRowHas(cell: (int, int) -> Option<int>, i: nat, m: nat, j: nat)
    requires j < m && j != i
    ensures cell(i, j) in OffRow(cell, i, m)
  {
    if j < m - 1 {
      OffRowHas(cell, i, m - 1, j);
    }
  }

  lemma {:induction false} OffDiagFrom(cell: (int, int) -> Option<int>, size: nat, n: nat, x: Option<int>) returns (i: nat, j: nat)
    requires x in OffDiag(cell, size, n)
    ensures i < n && j < size && i != j && cell(i, j) == x
    decreases n
  {
    var pre, row := OffDiag(cell, size, n - 1), OffRow(cell, n - 1, size);
    assert x in pre + row;
    if x in pre {
      i, j := OffDiagFrom(cell, size, n - 1, x);
    } else {
      i := n - 1;
      j := OffRowFrom(cell, i, size, x);
    }
  }

  lemma {:induction false} OffDiagHas(cell: (int, int) -> Option<int>, size: nat, n: nat, i: nat, j: nat)
    requires i < n && j < size && i != j
    ensures cell(i, j) in OffDiag(cell, size, n)
  {
    assert OffDiag(cell, size, n) == OffDiag(cell, size, n - 1) + OffRow(cell, n - 1, size);
    if i < n - 1 {
      OffDiagHas(cell, size, n - 1, i, j);
    } else {
      OffRowHas(cell, i, size, j);
    }
  }

  lemma CellMaxIsMax(bf: (string, string) -> Option<int>, ca: seq<string>, cb: seq<string>, i: nat, j: nat)
    requires i < |ca| && j < |cb| && bf(ca[i], cb[j]).Some?
    ensures CellMax(bf, ca, cb).Some? && CellMax(bf, ca, cb).value >= bf(ca[i], cb[j]).value
  {
    MaxOfOptsIsMax(CellVals(bf, ca, cb, |ca|));
    CellValsHas(bf, ca, cb, |ca|, i, j);
    var vals := CellVals(bf, ca, cb, |ca|);
    var k :| 0 <= k < |vals| && vals[k] == bf(ca[i], cb[j]);
  }

  /**
   * computeMax is at least 1 and at least every fare between members of two
   * different groups; and it is 1 or one of those fares.
   */
  lemma MaxFareBounds(bf: (string, string) -> Option<int>, gs: seq<seq<string>>)
    ensures MaxFare(bf, gs) >= 1
    ensures forall i, j, a, b :: 0 <= i < |gs| && 0 <= j < |gs| && i != j && 0 <= a < |gs[i]| && 0 <= b < |gs[j]| && bf(gs[i][a], gs[j][b]).Some?
              ==> MaxFare(bf, gs) >= bf(gs[i][a], gs[j][b]).value
    ensures MaxFare(bf, gs) == 1 ||
      exists i, j, a, b :: 0 <= i < |gs| && 0 <= j < |gs| && i != j && 0 <= a < |gs[i]| && 0 <= b < |gs[j]| && bf(gs[i][a], gs[j][b]) == Some(MaxFare(bf, gs))
  {
    var cell := CellMaxes(bf, gs);
    var all := OffDiag(cell, |gs|, |gs|);
    MaxOfOptsIsMax(all);
    forall i, j, a, b | 0 <= i < |gs| && 0 <= j < |gs| && i != j && 0 <= a < |gs[i]| && 0 <= b < |gs[j]| && bf(gs[i][a], gs[j][b]).Some?
      ensures MaxFare(bf, gs) >= bf(gs[i][a], gs[j][b]).value
    {
      CellMaxIsMax(bf, gs[i], gs[j], a, b);
      OffDiagHas(cell, |gs|, |gs|, i, j);
      assert cell(i, j) == CellMax(bf, gs[i], gs[j]);
      var k :| 0 <= k < |all| && all[k] == cell(i, j);
    }
    var m := MaxOfOpts(all);
    if m.Some? && m.value > 1 {
      var i, j := OffDiagFrom(cell, |gs|, |gs|, m);
      assert cell(i, j) == CellMax(bf, gs[i], gs[j]);
      var vals := CellVals(bf, gs[i], gs[j], |gs[i]|);
      MaxOfOptsIsMax(vals);
      var a, b := CellValsFrom(bf, gs[i], gs[j], |gs[i]|, m);
      assert bf(gs[i][a], gs[j][b]) == Some(MaxFare(bf, gs));
    }
  }

  /** A cell showing a fare, for positive fares, shows one between 1 and the grid's maximum. */
  lemma CellWithinMax(bf: (string, string) -> Option<int>, gs: seq<seq<string>>, i: nat, j: nat)
    requires i < |gs| && j < |gs| && i != j
    requires forall a, b :: bf(a, b).Some? ==> bf(a, b).value > 0
    ensures CellMin(bf, gs[i], gs[j]).Some? ==> 0 < CellMin(bf, gs[i], gs[j]).value <= MaxFare(bf, gs)
  {
    CellMinIsCheapest(bf, gs[i], gs[j]);
    MaxFareBounds(bf, gs);
    if CellMin(bf, gs[i], gs[j]).Some? {
      var a, b :| 0 <= a < |gs[i]| && 0 <= b < |gs[j]| && bf(gs[i][a], gs[j][b]) == CellMin(bf, gs[i], gs[j]);
    }
  }

  /** The innermost loop of computeMax for one a: the running maximum. */
  method RowMax(bf: (string, string) -> Option<int>, a: string, cb: seq<string>, best0: Option<int>, ghost before: seq<Option<int>>)
    returns (best: Option<int>)
    requires best0 == MaxOfOpts(before)
    ensures best == MaxOfOpts(before + PairRow(bf, a, cb))
  {
    ghost var row := PairRow(bf, a, cb);
    best := best0;
    assert before + row[..0] == before;
    for j := 0 to |cb|
      invariant best == MaxOfOpts(before + row[..j])
    {
      PairRowStep(bf, a, cb, before, j);
      var v := bf(a, cb[j]);
      KeepMax(best, v);
      if v.Some? {
        best := if best.None? then v else Some(Max(best.value, v.value));
      }
    }
    assert row[..|cb|] == row;
  }

  /** The loops over the members of one pair of groups in computeMax. */
  method PairMax(bf: (string, string) -> Option<int>, ca: seq<string>, cb: seq<string>) returns (best: Option<int>)
    ensures best == CellMax(bf, ca, cb)
  {
    best := None;
    for i := 0 to |ca|
      invariant best == MaxOfOpts(CellVals(bf, ca, cb, i))
    {
      best := RowMax(bf, ca[i], cb, best, CellVals(bf, ca, cb, i));
    }
  }

  /** `if (best != null) maxV = Math.max(maxV, best)` keeps maxV = AtLeast1 of the running maximum. */
  lemma AtLeast1Step(s: seq<Option<int>>, x: Option<int>)
    ensures AtLeast1(MaxOfOpts(s + [x])) == if x.None? then AtLeast1(MaxOfOpts(s)) else Max(AtLeast1(MaxOfOpts(s)), x.value)
  {
    assert (s + [x])[..|s|] == s;
  }

  /** Column j of row i changes the running value only off the diagonal, and only when the pair has a fare. */
  lemma OffRowStep(cell: (int, int) -> Option<int>, before: seq<Option<int>>, i: nat, j: nat)
    ensures AtLeast1(MaxOfOpts(before + OffRow(cell, i, j + 1)))
         == if j == i || cell(i, j).None? then AtLeast1(MaxOfOpts(before + OffRow(cell, i, j)))
            else Max(AtLeast1(MaxOfOpts(before + OffRow(cell, i, j))), cell(i, j).value)
  {
    if j == i {
      assert OffRow(cell, i, j + 1) == OffRow(cell, i, j);
    } else {
      assert before + OffRow(cell, i, j + 1) == (before + OffRow(cell, i, j)) + [cell(i, j)];
      AtLeast1Step(before + OffRow(cell, i, j), cell(i, j));
    }
  }

  /** The loop over the columns gb of one row ga in computeMax. */
  method MaxOverRow(bf: (string, string) -> Option<int>, gs: seq<seq<string>>, i: nat, maxV0: int, ghost before: seq<Option<int>>)
    returns (maxV: int)
    requires i < |gs| && maxV0 == AtLeast1(MaxOfOpts(before))
    ensures maxV == AtLeast1(MaxOfOpts(before + OffRow(CellMaxes(bf, gs), i, |gs|)))
  {
    ghost var cell := CellMaxes(bf, gs);
    maxV := maxV0;
    assert before + OffRow(cell, i, 0) == before;
    for j := 0 to |gs|
      invariant maxV == AtLeast1(MaxOfOpts(before + OffRow(cell, i, j)))
    {
      OffRowStep(cell, before, i, j);
      if j == i {
        continue;
      }
      var best := PairMax(bf, gs[i], gs[j]);
      assert best == cell(i, j);
      if best.Some? {
        maxV := Max(maxV, best.value);
      }
    }
  }

  /** computeMax (main.js 1023-1037) and the maxFare loop (console.js 498-512). */
  method ComputeMax(bf: (string, string) -> Option<int>, gs: seq<seq<string>>) returns (maxV: int)
    ensures maxV == MaxFare(bf, gs)
  {
    maxV := 1;
    for i := 0 to |gs|
      invariant maxV == AtLeast1(MaxOfOpts(OffDiag(CellMaxes(bf, gs), |gs|, i)))
    {
      maxV := MaxOverRow(bf, gs, i, maxV, OffDiag(CellMaxes(bf, gs), |gs|, i));
    }
  }

  // ---------------------------------------------------------------
  // Line colours of a cell (colorsForGroups)
  // ---------------------------------------------------------------

  /** Adding colours to a Set keeps the first occurrence of each, in insertion order. */
  function AddNew(acc: seq<string>, cs: seq<string>): seq<string>
  {
    if cs == [] then acc
    else
      var r := AddNew(acc, cs[..|cs| - 1]);
      if cs[|cs| - 1] in r then r else r + [cs[|cs| - 1]]
  }

  /** The Set never holds a colour twice, keeps what it had, and gains exactly the added colours. */
  lemma {:induction false} AddNewSet(acc: seq<string>, cs: seq<string>)
    requires NoDup(acc)
    ensures NoDup(AddNew(acc, cs))
    ensures forall c :: c in AddNew(acc, cs) <==> c in acc || c in cs
    ensures |AddNew(acc, cs)| >= |acc| && AddNew(acc, cs)[..|acc|] == acc
  {
    if cs != [] {
      var init := cs[..|cs| - 1];
      AddNewSet(acc, init);
      var r := AddNew(acc, init);
      if cs[|cs| - 1] !in r {
        assert (r + [cs[|cs| - 1]])[..|acc|] == r[..|acc|];
      }
      assert cs == init + [cs[|cs| - 1]];
    }
  }

  /** All the route colours of the member pairs of rows 0 .. n-1, in loop order. */
  function RouteColors(colors: (string, string) -> seq<string>, ca: seq<string>, cb: seq<string>, n: nat): seq<string>
    requires n <= |ca|
  {
    if n == 0 then [] else RouteColors(colors, ca, cb, n - 1) + RowColors(colors, ca[n - 1], cb, |cb|)
  }

  function RowColors(colors: (string, string) -> seq<string>, a: string, cb: seq<string>, m: nat): seq<string>
    requires m <= |cb|
  {
    if m == 0 then [] else RowColors(colors, a, cb, m - 1) + colors(a, cb[m - 1])
  }

  /** `Array.from(set).slice(0, 3)` after adding every route colour of every member pair. */
  function GroupColors(colors: (string, string) -> seq<string>, ca: seq<string>, cb: seq<string>): seq<string>
  {
    var all := AddNew([], RouteColors(colors, ca, cb, |ca|));
    all[..Min(3, |all|)]
  }

  lemma AddNewAppend(acc: seq<string>, xs: seq<string>, ys: seq<string>)
    ensures AddNew(acc, xs + ys) == AddNew(AddNew(acc, xs), ys)
    decreases |ys|
  {
    if ys == [] {
      assert xs + ys == xs;
    } else {
      AddNewAppend(acc, xs, ys[..|ys| - 1]);
      assert (xs + ys)[..|xs + ys| - 1] == xs + ys[..|ys| - 1];
    }
  }

  /**
   * A cell shows at most three distinct colours, each the colour of a line
   * serving some member pair; when the pairs use three colours or fewer,
   * all of them are shown.
   */
  lemma GroupColorsBounds(colors: (string, string) -> seq<string>, ca: seq<string>, cb: seq<string>)
    ensures |GroupColors(colors, ca, cb)| <= 3 && NoDup(GroupColors(colors, ca, cb))
    ensures forall c :: c in GroupColors(colors, ca, cb) ==> c in RouteColors(colors, ca, cb, |ca|)
    ensures |AddNew([], RouteColors(colors, ca, cb, |ca|))| <= 3 ==>
              forall c :: c in RouteColors(colors, ca, cb, |ca|) ==> c in GroupColors(colors, ca, cb)
  {
    var all := AddNew([], RouteColors(colors, ca, cb, |ca|));
    AddNewSet([], RouteColors(colors, ca, cb, |ca|));
    forall c | c in all[..Min(3, |all|)]
      ensures c in all
    {
    }
    if |all| <= 3 {
      assert all[..Min(3, |all|)] == all;
    }
  }

  /** The innermost loop: `for (const c of colorsForRoute(a, b)) set.add(c)`. */
  method AddColors(acc0: seq<string>, cs: seq<string>) returns (acc: seq<string>)
    ensures acc == AddNew(acc0, cs)
  {
    acc := acc0;
    for k := 0 to |cs|
      invariant acc == AddNew(acc0, cs[..k])
    {
      assert cs[..k + 1][..k] == cs[..k];
      if cs[k] !in acc {
        acc := acc + [cs[k]];
      }
    }
    assert cs[..|cs|] == cs;
  }

  /** colorsForGroups (main.js 1083-1089, console.js 486-496). */
  method ColorsForGroups(colors: (string, string) -> seq<string>, ca: seq<string>, cb: seq<string>) returns (r: seq<string>)
    ensures r == GroupColors(colors, ca, cb)
  {
    var seen: seq<string> := [];
    for i := 0 to |ca|
      invariant seen == AddNew([], RouteColors(colors, ca, cb, i))
    {
      assert RouteColors(colors, ca, cb, i) + RowColors(colors, ca[i], cb, 0) == RouteColors(colors, ca, cb, i);
      for j := 0 to |cb|
        invariant seen == AddNew([], RouteColors(colors, ca, cb, i) + RowColors(colors, ca[i], cb, j))
      {
        AddNewAppend([], RouteColors(colors, ca, cb, i) + RowColors(colors, ca[i], cb, j), colors(ca[i], cb[j]));
        assert RouteColors(colors, ca, cb, i) + RowColors(colors, ca[i], cb, j + 1)
            == (RouteColors(colors, ca, cb, i) + RowColors(colors, ca[i], cb, j)) + colors(ca[i], cb[j]);
        seen := AddColors(seen, colors(ca[i], cb[j]));
      }
    }
    r := seen[..Min(3, |seen|)];
  }

  // ---------------------------------------------------------------
  // The grid
  // ---------------------------------------------------------------

  /** A table cell: '-' on the diagonal, else the cheapest fare (blank if None) and the line-colour dots. */
  datatype Cell = Dash | FareCell(value: Option<int>, dots: seq<string>)

  /** One row of buildGrid. */
  method BuildRow(bf: (string, string) -> Option<int>, colors: (string, string) -> seq<string>, gs: seq<seq<string>>, i: nat)
    returns (row: seq<Cell>)
    requires i < |gs|
    ensures |row| == |gs| && row[i] == Dash
    ensures forall j :: 0 <= j < |gs| && j != i ==> row[j] == FareCell(CellMin(bf, gs[i], gs[j]), GroupColors(colors, gs[i], gs[j]))
  {
    row := [];
    for j := 0 to |gs|
      invariant |row| == j
      invariant i < j ==> row[i] == Dash
      invariant forall k :: 0 <= k < j && k != i ==> row[k] == FareCell(CellMin(bf, gs[i], gs[k]), GroupColors(colors, gs[i], gs[k]))
    {
      if j == i {
        row := row + [Dash];
        continue;
      }
      var v := GridCell(bf, gs[i], gs[j]);
      var cols := ColorsForGroups(colors, gs[i], gs[j]);
      row := row + [FareCell(v, cols)];
    }
  }

  /** buildGrid (main.js 1115-1175) and the table body (console.js 528-554). */
  method BuildGrid(bf: (string, string) -> Option<int>, colors: (string, string) -> seq<string>, gs: seq<seq<string>>)
    returns (grid: seq<seq<Cell>>)
    ensures |grid| == |gs|
    ensures forall i :: 0 <= i < |gs| ==> |grid[i]| == |gs| && grid[i][i] == Dash
    ensures forall i, j :: 0 <= i < |gs| && 0 <= j < |gs| && i != j ==>
              grid[i][j] == FareCell(CellMin(bf, gs[i], gs[j]), GroupColors(colors, gs[i], gs[j]))
  {
    grid := [];
    for i := 0 to |gs|
      invariant |grid| == i
      invariant forall k :: 0 <= k < i ==> |grid[k]| == |gs| && grid[k][k] == Dash
      invariant forall k, j :: 0 <= k < i && 0 <= j < |gs| && k != j ==>
                  grid[k][j] == FareCell(CellMin(bf, gs[k], gs[j]), GroupColors(colors, gs[k], gs[j]))
    {
      var row := BuildRow(bf, colors, gs, i);
      grid := grid + [row];
    }
  }

  /** The member codes of each display group, the rows and columns of the grid. */
  function GroupCodes(dg: seq<DisplayGroup>): (r: seq<seq<string>>)
    ensures |r| == |dg| && forall i :: 0 <= i < |dg| ==> r[i] == dg[i].codes
  {
    seq(|dg|, i requires 0 <= i < |dg| => dg[i].codes)
  }
}
