/**
 * Optional values, used wherever the source returns null or undefined, and
 * the small facts about sequences that several parts of the model share.
 */
module Wrappers {
  datatype Option<T> = None | Some(value: T)
  {
    function GetOr(default: T): T
    {
      match this
      case None => default
      case Some(v) => v
    }
  }

  /** No element appears twice. */
  predicate NoDup<T(==)>(s: seq<T>)
  {
    forall i, j :: 0 <= i < j < |s| ==> s[i] != s[j]
  }

  /** The smaller of two optional integers, treating None as "no candidate yet". */
  function MinOpt(x: Option<int>, y: Option<int>): (r: Option<int>)
    ensures r.None? <==> (x.None? && y.None?)
    ensures r.Some? ==> (r == x || r == y)
    ensures x.Some? && r.Some? ==> r.value <= x.value
    ensures y.Some? && r.Some? ==> r.value <= y.value
  {
    if x.None? then y
    else if y.None? then x
    else if y.value < x.value then y else x
  }

  /** The larger of two optional integers, treating None as "no candidate yet". */
  function MaxOpt(x: Option<int>, y: Option<int>): (r: Option<int>)
    ensures r.None? <==> (x.None? && y.None?)
    ensures r.Some? ==> (r == x || r == y)
    ensures x.Some? && r.Some? ==> r.value >= x.value
    ensures y.Some? && r.Some? ==> r.value >= y.value
  {
    if x.None? then y
    else if y.None? then x
    else if y.value > x.value then y else x
  }

  /** The minimum of the values present in a sequence of optional integers, folded left to right. */
  function MinOfOpts(s: seq<Option<int>>): Option<int>
  {
    if s == [] then None else MinOpt(MinOfOpts(s[..|s| - 1]), s[|s| - 1])
  }

  /** MinOfOpts is None exactly when no value is present, and otherwise the least value present. */
  lemma {:induction false} MinOfOptsIsMin(s: seq<Option<int>>)
    ensures MinOfOpts(s).None? <==> (forall i :: 0 <= i < |s| ==> s[i].None?)
    ensures MinOfOpts(s).Some? ==> MinOfOpts(s) in s
    ensures MinOfOpts(s).Some? ==> forall i :: 0 <= i < |s| && s[i].Some? ==> MinOfOpts(s).value <= s[i].value
  {
    if s != [] {
      var init := s[..|s| - 1];
      MinOfOptsIsMin(init);
      assert forall i :: 0 <= i < |init| ==> init[i] == s[i];
    }
  }

  /** Folding one more candidate in. */
  lemma MinOfOptsSnoc(s: seq<Option<int>>, x: Option<int>)
    ensures MinOfOpts(s + [x]) == MinOpt(MinOfOpts(s), x)
  {
    assert (s + [x])[..|s|] == s;
  }

  /** The maximum of the values present in a sequence of optional integers, folded left to right. */
  function MaxOfOpts(s: seq<Option<int>>): Option<int>
  {
    if s == [] then None else MaxOpt(MaxOfOpts(s[..|s| - 1]), s[|s| - 1])
  }

  /** MaxOfOpts is None exactly when no value is present, and otherwise the greatest value present. */
  lemma {:induction false} MaxOfOptsIsMax(s: seq<Option<int>>)
    ensures MaxOfOpts(s).None? <==> (forall i :: 0 <= i < |s| ==> s[i].None?)
    ensures MaxOfOpts(s).Some? ==> MaxOfOpts(s) in s
    ensures MaxOfOpts(s).Some? ==> forall i :: 0 <= i < |s| && s[i].Some? ==> MaxOfOpts(s).value >= s[i].value
  {
    if s != [] {
      var init := s[..|s| - 1];
      MaxOfOptsIsMax(init);
      assert forall i :: 0 <= i < |init| ==> init[i] == s[i];
    }
  }

  /** Two sequences offering the same values have the same minimum. */
  lemma MinOfOptsSameValues(s: seq<Option<int>>, t: seq<Option<int>>)
    requires forall x :: x in s && x.Some? ==> x in t
    requires forall x :: x in t && x.Some? ==> x in s
    ensures MinOfOpts(s) == MinOfOpts(t)
  {
    MinOfOptsIsMin(s);
    MinOfOptsIsMin(t);
    var a, b := MinOfOpts(s), MinOfOpts(t);
    if a.Some? {
      assert a in t;
      var i :| 0 <= i < |t| && t[i] == a;
    }
    if b.Some? {
      assert b in s;
      var j :| 0 <= j < |s| && s[j] == b;
    }
  }
}
