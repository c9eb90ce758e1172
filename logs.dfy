/**
 * The operation-log page (logs.js): the three filters over the fetched
 * entries, the newest-first order, HTML escaping, the type badges and
 * labels, the IP choices offered by the filter and the per-IP grouping.
 * The page's markup and time formatting are not part of this model.
 */
module Logs {
  import opened Text

  /**
   * One log entry as the page reads it. A missing field reads as "" (the
   * page's `l.ip || ''`, `String(l.ts || '')`); detailJson stands for
   * JSON.stringify(l.detail || {}), taken as given.
   */
  datatype Entry = Entry(ip: string, logType: string, ts: string, detailJson: string)

  /** The raw values of the keyword box and the IP and type selectors. */
  datatype Filters = Filters(keyword: string, ip: string, logType: string)

  // ---------------------------------------------------------------
  // applyFilters
  // ---------------------------------------------------------------

  /** The text the keyword is searched in: the type, a space, the serialised detail, lower-cased. */
  function SearchText(e: Entry): string
  {
    Lower(e.logType + " " + e.detailJson)
  }

  /**
   * The filter callback: an empty (trimmed) selector lets everything
   * through, a non-empty one must equal the field exactly; the lower-cased
   * keyword must occur in the search text.
   */
  predicate Keeps(f: Filters, e: Entry)
  {
    var kw := Lower(TrimJs(f.keyword));
    var ip := TrimJs(f.ip);
    var tp := TrimJs(f.logType);
    (ip == "" || e.ip == ip) && (tp == "" || e.logType == tp) && (kw == "" || Contains(SearchText(e), kw))
  }

  /** items.filter(keep): the kept entries in their original order. */
  function Filter(keep: Entry -> bool, items: seq<Entry>): (r: seq<Entry>)
    ensures |r| <= |items|
    ensures forall e :: e in r <==> e in items && keep(e)
    ensures multiset(r) <= multiset(items)
  {
    if items == [] then []
    else
      assert items == [items[0]] + items[1..];
      (if keep(items[0]) then [items[0]] else []) + Filter(keep, items[1..])
  }

  /** Every entry sorts no later than the entries after it: ts descending. */
  predicate NewestFirst(s: seq<Entry>)
  {
    forall i, j :: 0 <= i < j < |s| ==> LexLe(s[j].ts, s[i].ts)
  }

  /**
   * One insertion step of the stable sort with the comparator
   * b.ts.localeCompare(a.ts): x goes before the first entry that is strictly
   * older, so entries with equal stamps keep their input order.
   */
  function Insert(x: Entry, s: seq<Entry>): (r: seq<Entry>)
    ensures multiset(r) == multiset(s) + multiset{x}
    ensures |r| == |s| + 1
    ensures forall e :: e in r <==> e == x || e in s
  {
    if s == [] || LexLe(s[0].ts, x.ts) then [x] + s
    else
      assert s == [s[0]] + s[1..];
      [s[0]] + Insert(x, s[1..])
  }

  /** The sort of applyFilters, as insertion of each entry into the sorted rest. */
  function SortNewestFirst(s: seq<Entry>): (r: seq<Entry>)
    ensures multiset(r) == multiset(s)
    ensures |r| == |s|
  {
    if s == [] then []
    else
      assert s == [s[0]] + s[1..];
      Insert(s[0], SortNewestFirst(s[1..]))
  }

  /** An entry no older than every entry of a newest-first sequence can go in front. */
  lemma ConsSorted(x: Entry, s: seq<Entry>)
    requires NewestFirst(s)
    requires forall e :: e in s ==> LexLe(e.ts, x.ts)
    ensures NewestFirst([x] + s)
  {
    var r := [x] + s;
    forall i, j | 0 <= i < j < |r| ensures LexLe(r[j].ts, r[i].ts) {
      if i == 0 {
        assert r[j] == s[j - 1] && s[j - 1] in s;
      } else {
        assert r[i] == s[i - 1] && r[j] == s[j - 1];
      }
    }
  }

  /** Inserting into a newest-first sequence keeps it newest-first. */
  lemma {:induction false} InsertSorted(x: Entry, s: seq<Entry>)
    requires NewestFirst(s)
    ensures NewestFirst(Insert(x, s))
  {
    if s == [] {
    } else if LexLe(s[0].ts, x.ts) {
      forall e | e in s ensures LexLe(e.ts, x.ts) {
        var k :| 0 <= k < |s| && s[k] == e;
        if k > 0 {
          LexLeTrans(e.ts, s[0].ts, x.ts);
        }
      }
      ConsSorted(x, s);
    } else {
      LexLeTotal(s[0].ts, x.ts);
      var tail := s[1..];
      assert NewestFirst(tail) by {
        forall i, j | 0 <= i < j < |tail| ensures LexLe(tail[j].ts, tail[i].ts) {
          assert tail[i] == s[i + 1] && tail[j] == s[j + 1];
        }
      }
      InsertSorted(x, tail);
      forall e | e in Insert(x, tail) ensures LexLe(e.ts, s[0].ts) {
        if e != x {
          var k :| 0 <= k < |tail| && tail[k] == e;
          assert s[k + 1] == e;
        }
      }
      ConsSorted(s[0], Insert(x, tail));
    }
  }

  lemma {:induction false} SortSorted(s: seq<Entry>)
    ensures NewestFirst(SortNewestFirst(s))
  {
    if s != [] {
      SortSorted(s[1..]);
      InsertSorted(s[0], SortNewestFirst(s[1..]));
    }
  }

  /** applyFilters: the kept entries, newest first. */
  function ApplyFilters(f: Filters, items: seq<Entry>): seq<Entry>
  {
    SortNewestFirst(Filter(e => Keeps(f, e), items))
  }

  /**
   * The result holds exactly the kept entries, each as often as in the
   * filtered list (a permutation of it), ordered by stamp descending.
   */
  lemma ApplyFiltersSpec(f: Filters, items: seq<Entry>)
    ensures var r := ApplyFilters(f, items);
      multiset(r) == multiset(Filter(e => Keeps(f, e), items)) && multiset(r) <= multiset(items)
      && (forall e :: e in r <==> e in items && Keeps(f, e))
      && NewestFirst(r)
  {
    var r := ApplyFilters(f, items);
    var kept := Filter(e => Keeps(f, e), items);
    SortSorted(kept);
    forall e ensures e in r <==> e in kept {
      assert e in r <==> e in multiset(r);
    }
  }

  /** With every selector and the keyword empty, nothing is filtered out. */
  lemma NoFiltersKeepAll(items: seq<Entry>)
    ensures multiset(ApplyFilters(Filters("", "", ""), items)) == multiset(items)
  {
    var f := Filters("", "", "");
    assert TrimJs("") == "";
    assert forall e :: Keeps(f, e);
    FilterAll(e => Keeps(f, e), items);
  }

  lemma {:induction false} FilterAll(keep: Entry -> bool, items: seq<Entry>)
    requires forall e :: keep(e)
    ensures Filter(keep, items) == items
  {
    if items != [] {
      FilterAll(keep, items[1..]);
    }
  }

  // ---------------------------------------------------------------
  // escapeHTML
  // ---------------------------------------------------------------

  function EscapeChar(c: char): string
  {
    if c == '&' then "&amp;" else if c == '<' then "&lt;" else if c == '>' then "&gt;" else [c]
  }

  /** escapeHTML: '&', '<' and '>' become entities, every other character stays. */
  function EscapeHtml(s: string): (r: string)
    ensures '<' !in r && '>' !in r
    ensures |r| >= |s|
  {
    if s == [] then [] else EscapeChar(s[0]) + EscapeHtml(s[1..])
  }

  /** Reading the three entities back; any other character stands for itself. */
  function Unescape(s: string): string
    decreases |s|
  {
    if s == [] then []
    else if StartsWith(s, "&amp;") then "&" + Unescape(s[5..])
    else if StartsWith(s, "&lt;") then "<" + Unescape(s[4..])
    else if StartsWith(s, "&gt;") then ">" + Unescape(s[4..])
    else [s[0]] + Unescape(s[1..])
  }

  /** Escaping loses nothing: the original text is read back from the escaped one. */
  lemma {:induction false} UnescapeEscape(s: string)
    ensures Unescape(EscapeHtml(s)) == s
  {
    if s != [] {
      UnescapeEscape(s[1..]);
      UnescapeStep(s[0], EscapeHtml(s[1..]));
      assert s == [s[0]] + s[1..];
    }
  }

  /** One escaped character in front is read back as that character. */
  lemma UnescapeStep(c: char, t: string)
    ensures Unescape(EscapeChar(c) + t) == [c] + Unescape(t)
  {
    if c == '&' {
      UnescapeAmp(t);
    } else if c == '<' {
      UnescapeLt(t);
    } else if c == '>' {
      UnescapeGt(t);
    } else {
      var e := [c] + t;
      assert e[0] == c && e[1..] == t;
    }
  }

  lemma UnescapeAmp(t: string)
    ensures Unescape("&amp;" + t) == "&" + Unescape(t)
  {
    var e := "&amp;" + t;
    assert e[..5] == "&amp;" && e[5..] == t;
  }

  lemma UnescapeLt(t: string)
    ensures Unescape("&lt;" + t) == "<" + Unescape(t)
  {
    var e := "&lt;" + t;
    assert e[..4] == "&lt;" && e[4..] == t;
    assert e[1] == 'l';
  }

  lemma UnescapeGt(t: string)
    ensures Unescape("&gt;" + t) == ">" + Unescape(t)
  {
    var e := "&gt;" + t;
    assert e[..4] == "&gt;" && e[4..] == t;
    assert e[1] == 'g';
  }

  /** Text without '&', '<' or '>' is left exactly as it is. */
  lemma {:induction false} EscapePlain(s: string)
    requires forall i :: 0 <= i < |s| ==> s[i] != '&' && s[i] != '<' && s[i] != '>'
    ensures EscapeHtml(s) == s
  {
    if s != [] {
      EscapePlain(s[1..]);
      assert s == [s[0]] + s[1..];
    }
  }

  // ---------------------------------------------------------------
  // Type badges and labels
  // ---------------------------------------------------------------

  predicate KnownType(t: string)
  {
    t == "login" || t == "promotion" || t == "export_data" || t == "test"
  }

  const DefaultBadge := "badge badge-default"

  /** The fallback label, 事件 ("event"). */
  const DefaultLabel := "\U{4E8B}\U{4EF6}"

  /** typeBadgeClass: the known types' own badge, the default badge for everything else. */
  function TypeBadgeClass(t: string): (r: string)
    ensures KnownType(t) <==> r != DefaultBadge
  {
    if t == "login" then "badge badge-login"
    else if t == "promotion" then "badge badge-promotion"
    else if t == "export_data" then "badge badge-export"
    else if t == "test" then "badge badge-test"
    else DefaultBadge
  }

  /** typeLabelZh: 登录, 优惠, 导出, 测试 for the known types, 事件 for everything else. */
  function TypeLabelZh(t: string): (r: string)
    ensures KnownType(t) <==> r != DefaultLabel
    ensures r != ""
  {
    if t == "login" then "\U{767B}\U{5F55}"
    else if t == "promotion" then "\U{4F18}\U{60E0}"
    else if t == "export_data" then "\U{5BFC}\U{51FA}"
    else if t == "test" then "\U{6D4B}\U{8BD5}"
    else DefaultLabel
  }

  /** Badge and label agree: an entry shows the default badge exactly when it shows the default label. */
  lemma BadgeMatchesLabel(t: string)
    ensures TypeBadgeClass(t) == DefaultBadge <==> TypeLabelZh(t) == DefaultLabel
  {
  }

  // ---------------------------------------------------------------
  // populateIpFilter
  // ---------------------------------------------------------------

  /** The group and option an entry belongs to: its IP, or "unknown" when it has none. */
  function IpLabel(e: Entry): (k: string)
    ensures k != ""
  {
    if e.ip == "" then "unknown" else e.ip
  }

  predicate Distinct(s: seq<string>)
  {
    forall i, j :: 0 <= i < j < |s| ==> s[i] != s[j]
  }

  /**
   * Array.from(new Set(items.map(i => i.ip || 'unknown'))): every label
   * once, in order of first appearance.
   */
  function IpOptions(items: seq<Entry>): (r: seq<string>)
    ensures Distinct(r) && "" !in r
  {
    if items == [] then []
    else
      var d := IpOptions(items[..|items| - 1]);
      var k := IpLabel(items[|items| - 1]);
      if k in d then d else d + [k]
  }

  /** Every entry's label is offered. */
  lemma {:induction false} LabelsOffered(items: seq<Entry>)
    ensures forall i :: 0 <= i < |items| ==> IpLabel(items[i]) in IpOptions(items)
  {
    if items != [] {
      var init := items[..|items| - 1];
      LabelsOffered(init);
      assert forall i :: 0 <= i < |init| ==> items[i] == init[i];
    }
  }

  /** Only labels of entries are offered: the entry at the returned index carries label k. */
  lemma {:induction false} OfferedLabel(items: seq<Entry>, k: string) returns (i: nat)
    requires k in IpOptions(items)
    ensures i < |items| && IpLabel(items[i]) == k
  {
    var init := items[..|items| - 1];
    if k in IpOptions(init) {
      i := OfferedLabel(init, k);
      assert init[i] == items[i];
    } else {
      i := |items| - 1;
    }
  }

  /**
   * The selector's value after the options are rebuilt: the previous
   * choice if it is still offered, otherwise the "all IPs" option "".
   */
  function IpSelection(items: seq<Entry>, current: string): (sel: string)
    ensures sel == current <==> current in IpOptions(items) || current == ""
    ensures sel == "" || sel in IpOptions(items)
  {
    if current in IpOptions(items) then current else ""
  }

  lemma UnknownTrimmed()
    ensures TrimJs("unknown") == "unknown"
  {
    var s := "unknown";
    assert !IsJsSpace(s[0]) && !IsJsSpace(s[|s| - 1]);
    assert DropLeading(s, IsJsSpace) == s;
  }

  /**
   * Entries without an IP are offered as "unknown", but choosing "unknown"
   * keeps only entries whose IP is literally "unknown": the filter compares
   * with `l.ip || ''`, not with the label.
   */
  lemma UnknownOptionMissesEntriesWithoutIp(items: seq<Entry>, kw: string, tp: string)
    ensures forall e :: e in items && e.ip == "" ==> "unknown" in IpOptions(items)
    ensures forall e :: e in ApplyFilters(Filters(kw, "unknown", tp), items) ==> e.ip == "unknown"
  {
    UnknownTrimmed();
    ApplyFiltersSpec(Filters(kw, "unknown", tp), items);
    LabelsOffered(items);
    forall e | e in items && e.ip == "" ensures "unknown" in IpOptions(items) {
      var i :| 0 <= i < |items| && items[i] == e;
    }
  }

  // ---------------------------------------------------------------
  // renderGrouped
  // ---------------------------------------------------------------

  /** The entries of one group, in input order. */
  function Members(items: seq<Entry>, k: string): (r: seq<Entry>)
    ensures |r| <= |items|
  {
    if items == [] then []
    else
      var last := items[|items| - 1];
      Members(items[..|items| - 1], k) + (if IpLabel(last) == k then [last] else [])
  }

  /** A group holds exactly the entries carrying its label. */
  lemma {:induction false} MembersExactly(items: seq<Entry>, k: string)
    ensures forall e :: e in Members(items, k) <==> e in items && IpLabel(e) == k
  {
    if items != [] {
      var init := items[..|items| - 1];
      MembersExactly(init, k);
      assert items == init + [items[|items| - 1]];
    }
  }

  /** keys and groups hold the grouping of the entries seen so far. */
  ghost predicate GroupedAs(done: seq<Entry>, keys: seq<string>, groups: map<string, seq<Entry>>)
  {
    keys == IpOptions(done)
    && (forall k :: k in groups <==> k in keys)
    && (forall k :: k in groups ==> groups[k] == Members(done, k))
  }

  /**
   * renderGrouped's loop: one group per IP label, created when the label is
   * first met, each entry appended to its own group. `keys` is the Map's
   * insertion order.
   */
  method RenderGrouped(items: seq<Entry>) returns (keys: seq<string>, groups: map<string, seq<Entry>>)
    ensures GroupedAs(items, keys, groups)
  {
    keys, groups := [], map[];
    var i := 0;
    while i < |items|
      invariant 0 <= i <= |items|
      invariant GroupedAs(items[..i], keys, groups)
    {
      ghost var done := items[..i];
      keys, groups := AddToGroup(done, items[i], keys, groups);
      assert items[..i + 1] == done + [items[i]];
      i := i + 1;
    }
    assert items[..i] == items;
  }

  /** One iteration: `groups.get(k) || []`, push, `groups.set(k, arr)`. */
  method AddToGroup(ghost done: seq<Entry>, x: Entry, keys: seq<string>, groups: map<string, seq<Entry>>)
    returns (keys': seq<string>, groups': map<string, seq<Entry>>)
    requires GroupedAs(done, keys, groups)
    ensures GroupedAs(done + [x], keys', groups')
  {
    var k := IpLabel(x);
    GroupStep(done, x);
    if k !in keys {
      MembersAbsent(done, k);
    }
    var arr := if k in groups then groups[k] else [];
    groups' := groups[k := arr + [x]];
    keys' := if k in keys then keys else keys + [k];
  }

  /** A label that is not offered has no members. */
  lemma {:induction false} MembersAbsent(items: seq<Entry>, k: string)
    requires k !in IpOptions(items)
    ensures Members(items, k) == []
  {
    if items != [] {
      var init := items[..|items| - 1];
      var x := items[|items| - 1];
      assert items == init + [x];
      GroupStep(init, x);
      MembersAbsent(init, k);
    }
  }

  /** What one more entry does to the options and to each group. */
  lemma GroupStep(items: seq<Entry>, x: Entry)
    ensures IpOptions(items + [x]) == if IpLabel(x) in IpOptions(items) then IpOptions(items) else IpOptions(items) + [IpLabel(x)]
    ensures forall k :: Members(items + [x], k) == Members(items, k) + (if IpLabel(x) == k then [x] else [])
  {
    assert (items + [x])[..|items|] == items;
  }

  /** The sizes of the groups listed in keys, added up. */
  function TotalSize(items: seq<Entry>, keys: seq<string>): nat
  {
    if keys == [] then 0 else |Members(items, keys[0])| + TotalSize(items, keys[1..])
  }

  function Occurrences(keys: seq<string>, k: string): nat
  {
    if keys == [] then 0 else (if keys[0] == k then 1 else 0) + Occurrences(keys[1..], k)
  }

  lemma {:induction false} OccurrencesDistinct(keys: seq<string>, k: string)
    requires Distinct(keys)
    ensures Occurrences(keys, k) == if k in keys then 1 else 0
  {
    if keys != [] {
      OccurrencesDistinct(keys[1..], k);
      if keys[0] == k {
        assert forall j :: 0 <= j < |keys[1..]| ==> keys[1..][j] == keys[j + 1] != k;
      }
    }
  }

  /** One more entry adds one to each listed group it belongs to. */
  lemma {:induction false} TotalSnoc(items: seq<Entry>, x: Entry, keys: seq<string>)
    ensures TotalSize(items + [x], keys) == TotalSize(items, keys) + Occurrences(keys, IpLabel(x))
  {
    if keys != [] {
      TotalSnoc(items, x, keys[1..]);
      assert (items + [x])[..|items|] == items;
    }
  }

  lemma {:induction false} TotalAppendKey(items: seq<Entry>, keys: seq<string>, k: string)
    ensures TotalSize(items, keys + [k]) == TotalSize(items, keys) + |Members(items, k)|
  {
    if keys == [] {
      assert keys + [k] == [k];
    } else {
      TotalAppendKey(items, keys[1..], k);
      assert (keys + [k])[1..] == keys[1..] + [k];
    }
  }

  /**
   * Every entry lands in exactly one group, so the group sizes add up to
   * the number of entries rendered.
   */
  lemma {:induction false} GroupsPartition(items: seq<Entry>)
    ensures TotalSize(items, IpOptions(items)) == |items|
    ensures forall e, k :: e in items ==> (e in Members(items, k) <==> k == IpLabel(e))
  {
    forall k ensures forall e :: e in Members(items, k) <==> e in items && IpLabel(e) == k {
      MembersExactly(items, k);
    }
    GroupSizes(items);
  }

  lemma {:induction false} GroupSizes(items: seq<Entry>)
    ensures TotalSize(items, IpOptions(items)) == |items|
  {
    if items != [] {
      var init := items[..|items| - 1];
      var x := items[|items| - 1];
      assert items == init + [x];
      GroupSizes(init);
      var keys := IpOptions(init);
      var k := IpLabel(x);
      TotalSnoc(init, x, keys);
      OccurrencesDistinct(keys, k);
      if k !in keys {
        MembersAbsent(init, k);
        TotalAppendKey(items, keys, k);
      }
    }
  }
}
