/**
 * The line editor and statistics helpers of main.js: the time-window
 * label, the bulk selection of segments, and the two ways of adding a
 * station to a line from its diagram (shift-click on a segment inserts
 * after the segment's start; a click elsewhere appends), including the
 * code the editor proposes for the new station.
 */
module MainEditor {
  import opened Wrappers
  import opened Text
  import opened MainFares

  // ---------------------------------------------------------------
  // formatWindow
  // ---------------------------------------------------------------

  /**
   * formatWindow: "YYYYMMDDHH" becomes "YYYY-MM-DD HH:00", "YYYYMMDD"
   * becomes "YYYY-MM-DD", anything else is shown as it is. A missing
   * window is the empty string.
   */
  function FormatWindow(s: string): (r: string)
    ensures |s| == 10 ==> |r| == 16 && r[4] == '-' && r[7] == '-' && r[10] == ' ' && r[13..] == ":00"
    ensures |s| == 8 ==> |r| == 10 && r[4] == '-' && r[7] == '-'
    ensures |s| != 10 && |s| != 8 ==> r == s
  {
    if |s| == 10 then s[..4] + "-" + s[4..6] + "-" + s[6..8] + " " + s[8..10] + ":00"
    else if |s| == 8 then s[..4] + "-" + s[4..6] + "-" + s[6..8]
    else s
  }

  /** Reads the digits back out of a formatted window label. */
  function UnformatWindow(r: string): string
  {
    if |r| == 16 then r[..4] + r[5..7] + r[8..10] + r[11..13]
    else if |r| == 10 then r[..4] + r[5..7] + r[8..10]
    else r
  }

  /** For an hour or day window the label loses nothing: the window can be read back from it. */
  lemma FormatWindowRoundTrip(s: string)
    requires |s| == 10 || |s| == 8
    ensures UnformatWindow(FormatWindow(s)) == s
  {
    var r := FormatWindow(s);
    var u := UnformatWindow(r);
    assert |u| == |s|;
    forall i | 0 <= i < |s|
      ensures u[i] == s[i]
    {
      if i < 4 {
        assert u[i] == r[i];
      } else if i < 6 {
        assert u[i] == r[i + 1];
      } else if i < 8 {
        assert u[i] == r[i + 2];
      } else {
        assert u[i] == r[i + 3];
      }
    }
  }

  // ---------------------------------------------------------------
  // Bulk segment selection
  // ---------------------------------------------------------------

  datatype Segment = Segment(from: string, to: string)

  /** The fare editor's bulk request: the chosen segments and one price per tier. */
  datatype BulkRequest = BulkRequest(segments: seq<Segment>, costRegular: int, costExpress: int)

  /**
   * The first position of x in s, or |s| when absent: both
   * selectedSegments.findIndex(s => s.from === from && s.to === to) and
   * the line list's indexOf(code), with |s| standing for -1.
   */
  function FirstIndex<T(==)>(s: seq<T>, x: T): (i: nat)
    ensures i <= |s| && (i < |s| ==> s[i] == x)
    ensures forall k :: 0 <= k < i ==> s[k] != x
  {
    if s == [] then 0
    else if s[0] == x then 0
    else 1 + FirstIndex(s[1..], x)
  }

  /** A click in bulk mode: remove the segment if it is selected, else add it at the end. */
  function Toggled(s: seq<Segment>, seg: Segment): seq<Segment>
  {
    var i := FirstIndex(s, seg);
    if i < |s| then s[..i] + s[i + 1..] else s + [seg]
  }

  /**
   * On a selection without duplicates, a click flips the clicked segment's
   * membership, leaves every other segment's membership alone, and keeps
   * the selection free of duplicates.
   */
  lemma ToggledFlips(s: seq<Segment>, seg: Segment)
    requires NoDup(s)
    ensures NoDup(Toggled(s, seg))
    ensures seg in Toggled(s, seg) <==> seg !in s
    ensures forall x :: x != seg ==> (x in Toggled(s, seg) <==> x in s)
  {
    var i := FirstIndex(s, seg);
    var t := Toggled(s, seg);
    if i < |s| {
      assert forall k :: 0 <= k < i ==> t[k] == s[k];
      assert forall k :: i <= k < |t| ==> t[k] == s[k + 1];
      forall x | x in s && x != seg
        ensures x in t
      {
        var k :| 0 <= k < |s| && s[k] == x;
        if k < i { assert t[k] == x; } else { assert t[k - 1] == x; }
      }
      forall k | 0 <= k < |t|
        ensures t[k] != seg
      {
        if k >= i {
          assert t[k] == s[k + 1] && s[i] == seg;
        }
      }
    } else {
      assert seg !in s;
    }
  }

  /** Clicking the same segment twice restores the set of selected segments. */
  lemma ToggledTwice(s: seq<Segment>, seg: Segment)
    requires NoDup(s)
    ensures forall x :: x in Toggled(Toggled(s, seg), seg) <==> x in s
  {
    ToggledFlips(s, seg);
    ToggledFlips(Toggled(s, seg), seg);
  }

  /** The page's bulk-editing state: the mode switch and the selected segments. */
  class BulkSelection {
    var bulkMode: bool
    var selected: seq<Segment>

    ghost predicate Valid()
      reads this
    {
      NoDup(selected)
    }

    constructor()
      ensures Valid() && !bulkMode && selected == []
    {
      bulkMode := false;
      selected := [];
    }

    /** setBulkMode: only the switch changes; the selection survives. */
    method SetBulkMode(on: bool)
      modifies this
      ensures bulkMode == on && selected == old(selected)
    {
      bulkMode := on;
    }

    /** A segment click: in bulk mode it toggles the segment (findIndex, then splice or push). */
    method ClickSegment(from: string, to: string)
      requires Valid()
      modifies this
      ensures Valid()
      ensures bulkMode == old(bulkMode)
      ensures old(bulkMode) ==> selected == Toggled(old(selected), Segment(from, to))
      ensures !old(bulkMode) ==> selected == old(selected)
    {
      if !bulkMode {
        return;
      }
      var seg := Segment(from, to);
      var idx := 0;
      while idx < |selected| && selected[idx] != seg
        invariant 0 <= idx <= |selected|
        invariant forall k :: 0 <= k < idx ==> selected[k] != seg
      {
        idx := idx + 1;
      }
      assert idx == FirstIndex(selected, seg) by {
        FirstIndexIsFirst(selected, seg, idx);
      }
      ToggledFlips(selected, seg);
      if idx < |selected| {
        selected := selected[..idx] + selected[idx + 1..];
      } else {
        selected := selected + [seg];
      }
    }

    /**
     * applyBulk: with nothing selected it sends nothing; otherwise it sends
     * the selection with the two prices and clears the selection.
     */
    method ApplyBulk(costRegular: int, costExpress: int) returns (request: Option<BulkRequest>)
      requires Valid()
      modifies this
      ensures Valid() && bulkMode == old(bulkMode)
      ensures old(selected) == [] ==> request.None? && selected == []
      ensures old(selected) != [] ==> request == Some(BulkRequest(old(selected), costRegular, costExpress)) && selected == []
    {
      if |selected| == 0 {
        return None;
      }
      request := Some(BulkRequest(selected, costRegular, costExpress));
      selected := [];
    }
  }

  /** Any index with only non-matching elements before it, and a match or the end at it, is the first match. */
  lemma FirstIndexIsFirst<T>(s: seq<T>, x: T, idx: nat)
    requires idx <= |s| && (idx < |s| ==> s[idx] == x)
    requires forall k :: 0 <= k < idx ==> s[k] != x
    ensures FirstIndex(s, x) == idx
  {
    var i := FirstIndex(s, x);
    assert i <= idx by {
      if idx < |s| { assert s[idx] == x; }
    }
  }

  // ---------------------------------------------------------------
  // Proposed code for a new station
  // ---------------------------------------------------------------

  /** `String(x || '01-01').split('-')[0]`: the line prefix the editor works with. */
  function EditPrefix(x: string): (p: string)
    ensures '-' !in p
  {
    var src := if x == "" then "01-01" else x;
    ParseCodePrefix(src);
    ParseCode(src).prefix
  }

  /** Math.max(0, ...codes.filter(keep).map(num)): the largest number among the kept codes, or 0. */
  function MaxNumber(codes: seq<string>, keep: string -> bool, num: string -> int): (m: int)
    ensures m >= 0
  {
    if codes == [] then 0
    else
      var c := codes[|codes| - 1];
      var rest := MaxNumber(codes[..|codes| - 1], keep, num);
      if keep(c) && num(c) > rest then num(c) else rest
  }

  /** No kept code has a number above the maximum. */
  lemma {:induction false} MaxNumberBound(codes: seq<string>, keep: string -> bool, num: string -> int)
    ensures forall k :: 0 <= k < |codes| && keep(codes[k]) ==> num(codes[k]) <= MaxNumber(codes, keep, num)
  {
    if codes != [] {
      var init := codes[..|codes| - 1];
      MaxNumberBound(init, keep, num);
      assert forall k :: 0 <= k < |init| ==> init[k] == codes[k];
    }
  }

  /**
   * The largest `Number(code.split('-')[1]) || 0` among the codes that
   * start with prefix + "-" (ParseCode reads exactly that number), or 0.
   */
  function HighestNumber(codes: seq<string>, prefix: string): (m: nat)
  {
    MaxNumber(codes, OnLine(prefix), CodeNum)
  }

  /** s.code.startsWith(prefix + '-') */
  function OnLine(prefix: string): string -> bool
  {
    c => StartsWith(c, prefix + "-")
  }

  function CodeNum(c: string): int
  {
    ParseCode(c).num
  }

  function StationCodes(stations: seq<JsStation>): (r: seq<string>)
    ensures |r| == |stations| && forall k :: 0 <= k < |r| ==> r[k] == stations[k].code
  {
    seq(|stations|, k requires 0 <= k < |stations| => stations[k].code)
  }

  /** nextNum and the proposed code `${prefix}-${String(nextNum).padStart(2,'0')}`. */
  function SuggestedCode(stations: seq<JsStation>, prefix: string): string
  {
    SynthCode(prefix, HighestNumber(StationCodes(stations), prefix) + 1)
  }

  /** A kept code numbered above the maximum is none of the codes. */
  lemma AboveMaxIsFresh(codes: seq<string>, keep: string -> bool, num: string -> int, c: string)
    requires keep(c) && num(c) > MaxNumber(codes, keep, num)
    ensures forall k :: 0 <= k < |codes| ==> codes[k] != c
  {
    MaxNumberBound(codes, keep, num);
  }

  /** The proposed code is never the code of an existing station. */
  lemma SuggestedCodeIsFresh(stations: seq<JsStation>, prefix: string)
    requires '-' !in prefix
    ensures forall k :: 0 <= k < |stations| ==> stations[k].code != SuggestedCode(stations, prefix)
  {
    var codes := StationCodes(stations);
    var n := HighestNumber(codes, prefix) + 1;
    var c := SynthCode(prefix, n);
    assert c == SuggestedCode(stations, prefix);
    ParseSynthCode(prefix, n);
    assert c == (prefix + "-") + JsPad2(n);
    assert OnLine(prefix)(c) && CodeNum(c) == n;
    AboveMaxIsFresh(codes, OnLine(prefix), CodeNum, c);
  }

  // ---------------------------------------------------------------
  // Adding a station from the line diagram
  // ---------------------------------------------------------------

  /**
   * The outcome of an add: the dialog was cancelled, the line already
   * lists the code, or the line's new station list together with the
   * station to create first (none when the code already exists).
   */
  datatype AddOutcome = Cancelled | AlreadyOnLine | Added(stations: seq<string>, create: Option<JsStation>)

  /** The new station to create, unless some station already has the code. */
  function StationToCreate(all: seq<JsStation>, code: string, name: string, enName: string): (r: Option<JsStation>)
    ensures r.None? <==> exists k :: 0 <= k < |all| && all[k].code == code
    ensures r.Some? ==> r.value.code == code
  {
    if exists k :: 0 <= k < |all| && all[k].code == code then None
    else Some(JsStation(code, TrimJs(name), TrimJs(enName)))
  }

  /** insertPos: just after `from` if the line lists it, else the end. */
  function InsertPos(list: seq<string>, from: string): (pos: nat)
    ensures pos <= |list|
  {
    var i := FirstIndex(list, from);
    if i < |list| then i + 1 else |list|
  }

  /**
   * The dialog answers common to both ways of adding: a code (null when
   * cancelled), then a Chinese and an English name.
   */
  datatype Answers = Answers(code: Option<string>, name: Option<string>, enName: Option<string>)

  predicate Complete(ans: Answers)
  {
    ans.code.Some? && TrimJs(ans.code.value) != "" && ans.name.Some? && ans.enName.Some?
  }

  /** Shift-click on the segment from -> to: insert the new code right after `from`. */
  function InsertIntoSegment(list: seq<string>, all: seq<JsStation>, from: string, ans: Answers): (r: AddOutcome)
    ensures !Complete(ans) ==> r == Cancelled
    ensures Complete(ans) && TrimJs(ans.code.value) in list ==> r == AlreadyOnLine
    ensures r.Added? ==>
              && TrimJs(ans.code.value) !in list
              && |r.stations| == |list| + 1
              && r.stations[InsertPos(list, from)] == TrimJs(ans.code.value)
              && r.stations[..InsertPos(list, from)] == list[..InsertPos(list, from)]
              && r.stations[InsertPos(list, from) + 1..] == list[InsertPos(list, from)..]
  {
    if !Complete(ans) then Cancelled
    else
      var code := TrimJs(ans.code.value);
      if code in list then AlreadyOnLine
      else
        var pos := InsertPos(list, from);
        Added(list[..pos] + [code] + list[pos..], StationToCreate(all, code, ans.name.value, ans.enName.value))
  }

  /** A click on the diagram outside the segments: append the new code at the end of the line. */
  function AppendToLine(list: seq<string>, all: seq<JsStation>, ans: Answers): (r: AddOutcome)
    ensures !Complete(ans) ==> r == Cancelled
    ensures Complete(ans) && TrimJs(ans.code.value) in list ==> r == AlreadyOnLine
    ensures r.Added? ==> r.stations == list + [TrimJs(ans.code.value)] && TrimJs(ans.code.value) !in list
  {
    if !Complete(ans) then Cancelled
    else
      var code := TrimJs(ans.code.value);
      if code in list then AlreadyOnLine
      else Added(list + [code], StationToCreate(all, code, ans.name.value, ans.enName.value))
  }

  /** Putting a code that is not yet listed at any position keeps the list free of duplicates. */
  lemma InsertAtDistinct(list: seq<string>, pos: nat, code: string)
    requires NoDup(list) && code !in list && pos <= |list|
    ensures NoDup(list[..pos] + [code] + list[pos..])
    ensures multiset(list[..pos] + [code] + list[pos..]) == multiset(list) + multiset{code}
  {
    var t := list[..pos] + [code] + list[pos..];
    calc {
      multiset(t);
      multiset(list[..pos]) + multiset{code} + multiset(list[pos..]);
      { assert list == list[..pos] + list[pos..]; }
      multiset(list) + multiset{code};
    }
    InsertAtNoDup(list, pos, code);
  }

  lemma InsertAtNoDup(list: seq<string>, pos: nat, code: string)
    requires NoDup(list) && code !in list && pos <= |list|
    ensures NoDup(list[..pos] + [code] + list[pos..])
  {
    var t := list[..pos] + [code] + list[pos..];
    assert forall k :: 0 <= k < pos ==> t[k] == list[k];
    assert forall k :: pos < k < |t| ==> t[k] == list[k - 1];
    forall i, j | 0 <= i < j < |t|
      ensures t[i] != t[j]
    {
      if i == pos {
        assert t[j] == list[j - 1];
      } else if j == pos {
        assert t[i] == list[i];
      }
    }
  }

  /**
   * Adding never makes a line list a code twice, and an insertion on the
   * segment from -> to places the new code directly after `from`, so the
   * segment is split in two.
   */
  lemma InsertIntoSegmentSplits(list: seq<string>, all: seq<JsStation>, from: string, ans: Answers)
    requires NoDup(list)
    ensures InsertIntoSegment(list, all, from, ans).Added? ==> NoDup(InsertIntoSegment(list, all, from, ans).stations)
    ensures InsertIntoSegment(list, all, from, ans).Added? ==>
              multiset(InsertIntoSegment(list, all, from, ans).stations) == multiset(list) + multiset{TrimJs(ans.code.value)}
    ensures InsertIntoSegment(list, all, from, ans).Added? && from in list ==>
              var i := FirstIndex(list, from);
              InsertIntoSegment(list, all, from, ans).stations[i] == from
              && InsertIntoSegment(list, all, from, ans).stations[i + 1] == TrimJs(ans.code.value)
  {
    var r := InsertIntoSegment(list, all, from, ans);
    if r.Added? {
      var code := TrimJs(ans.code.value);
      var pos := InsertPos(list, from);
      InsertAtDistinct(list, pos, code);
      if from in list {
        var i := FirstIndex(list, from);
        assert r.stations[..pos][i] == list[..pos][i];
      }
    }
  }

  /** Appending also keeps the line free of duplicates, and adds exactly the new code. */
  lemma AppendToLineKeepsDistinct(list: seq<string>, all: seq<JsStation>, ans: Answers)
    requires NoDup(list)
    ensures AppendToLine(list, all, ans).Added? ==> NoDup(AppendToLine(list, all, ans).stations)
  {
    var r := AppendToLine(list, all, ans);
    if r.Added? {
      var t := r.stations;
      forall i, j | 0 <= i < j < |t|
        ensures t[i] != t[j]
      {
        if j == |list| { assert t[i] == list[i]; }
      }
    }
  }
}
