/**
 * The server's line record (data/Line.java): a fixed id, display fields and
 * an ordered list of station codes edited in place. The list operations
 * are specified by functions on sequences (first index, first-occurrence
 * removal, insertion) whose properties are proved once here.
 */
module LineData {
  import opened Wrappers

  /** List.indexOf: the first position of x, or -1. */
  function IndexOf(s: seq<string>, x: string): (k: int)
    ensures -1 <= k < |s|
    ensures k == -1 <==> x !in s
    ensures k >= 0 ==> s[k] == x && x !in s[..k]
  {
    if s == [] then -1
    else if s[0] == x then 0
    else
      var k := IndexOf(s[1..], x);
      if k == -1 then -1
      else
        assert s[..k + 1] == [s[0]] + s[1..][..k];
        k + 1
  }

  /** List.remove(Object): the list without the first occurrence of x, or unchanged when x is absent. */
  function RemoveFirst(s: seq<string>, x: string): seq<string>
  {
    var k := IndexOf(s, x);
    if k == -1 then s else s[..k] + s[k + 1..]
  }

  /**
   * Removing the first occurrence drops exactly one copy of x when present,
   * keeps every other code in its original order, and keeps a list free of
   * duplicates free of them, now without x.
   */
  lemma RemoveFirstSpec(s: seq<string>, x: string)
    ensures x !in s ==> RemoveFirst(s, x) == s
    ensures x in s ==> |RemoveFirst(s, x)| == |s| - 1
    ensures multiset(RemoveFirst(s, x)) == multiset(s) - multiset{x}
    ensures NoDup(s) ==> NoDup(RemoveFirst(s, x)) && x !in RemoveFirst(s, x)
  {
    var k := IndexOf(s, x);
    if k >= 0 {
      assert s == s[..k] + [s[k]] + s[k + 1..];
      if NoDup(s) {
        RemoveAtNoDup(s, k);
      }
    }
  }

  /** Dropping position k of a duplicate-free list leaves it duplicate-free and without the dropped code. */
  lemma RemoveAtNoDup(s: seq<string>, k: nat)
    requires k < |s| && NoDup(s)
    ensures NoDup(s[..k] + s[k + 1..]) && s[k] !in s[..k] + s[k + 1..]
  {
    var r := s[..k] + s[k + 1..];
    forall i, j | 0 <= i < j < |r| ensures r[i] != r[j] {
      var i' := if i < k then i else i + 1;
      var j' := if j < k then j else j + 1;
      assert r[i] == s[i'] && r[j] == s[j'];
    }
    forall i | 0 <= i < |r| ensures r[i] != s[k] {
      var i' := if i < k then i else i + 1;
      assert r[i] == s[i'] && i' != k;
    }
  }

  /** List.add(index, x): x placed at position index, everything else shifted after it. */
  function InsertAt(s: seq<string>, index: nat, x: string): (r: seq<string>)
    requires index <= |s|
  {
    s[..index] + [x] + s[index..]
  }

  /** Inserting a code not yet present keeps a list free of duplicates and adds exactly that code. */
  lemma InsertAtSpec(s: seq<string>, index: nat, x: string)
    requires index <= |s| && x !in s
    ensures multiset(InsertAt(s, index, x)) == multiset(s) + multiset{x}
    ensures InsertAt(s, index, x)[index] == x
    ensures NoDup(s) ==> NoDup(InsertAt(s, index, x))
  {
    var r := InsertAt(s, index, x);
    assert s == s[..index] + s[index..];
    if NoDup(s) {
      forall i, j | 0 <= i < j < |r| ensures r[i] != r[j] {
        if i == index {
          assert r[j] == s[j - 1];
        } else if j == index {
          assert r[i] == s[i];
        } else {
          var i' := if i < index then i else i - 1;
          var j' := if j < index then j else j - 1;
          assert r[i] == s[i'] && r[j] == s[j'];
        }
      }
    }
  }

  /** The neighbours of a code on the line, null (None) at either end. */
  datatype Adjacent = Adjacent(prev: Option<string>, next: Option<string>)

  /** getAdjacentStations on a list of codes: None for an absent code, else the codes either side of its first occurrence. */
  function AdjacentOf(codes: seq<string>, code: string): Option<Adjacent>
  {
    var k := IndexOf(codes, code);
    if k == -1 then None
    else Some(Adjacent(if k > 0 then Some(codes[k - 1]) else None,
                       if k < |codes| - 1 then Some(codes[k + 1]) else None))
  }

  class Line {
    const id: string
    var name: string
    var enName: string
    var color: string
    var stationCodes: seq<string>

    /** Line(id, name, color): no English name and no stations yet. */
    constructor (id: string, name: string, color: string)
      ensures this.id == id && this.name == name && enName == "" && this.color == color
      ensures stationCodes == []
    {
      this.id := id;
      this.name := name;
      enName := "";
      this.color := color;
      stationCodes := [];
    }

    /** Line(id, name, enName, color): no stations yet. */
    constructor Named(id: string, name: string, enName: string, color: string)
      ensures this.id == id && this.name == name && this.enName == enName && this.color == color
      ensures stationCodes == []
    {
      this.id := id;
      this.name := name;
      this.enName := enName;
      this.color := color;
      stationCodes := [];
    }

    method SetName(name: string)
      modifies this
      ensures this.name == name
      ensures enName == old(enName) && color == old(color) && stationCodes == old(stationCodes)
    {
      this.name := name;
    }

    method SetEnName(enName: string)
      modifies this
      ensures this.enName == enName
      ensures name == old(name) && color == old(color) && stationCodes == old(stationCodes)
    {
      this.enName := enName;
    }

    method SetColor(color: string)
      modifies this
      ensures this.color == color
      ensures name == old(name) && enName == old(enName) && stationCodes == old(stationCodes)
    {
      this.color := color;
    }

    /** setStationCodes: replaces the list as given, duplicates and all. */
    method SetStationCodes(codes: seq<string>)
      modifies this
      ensures stationCodes == codes
      ensures name == old(name) && enName == old(enName) && color == old(color)
    {
      stationCodes := codes;
    }

    /** addStation: appends the code unless the line already has it, so it never creates a duplicate. */
    method AddStation(code: string)
      modifies this
      ensures code in old(stationCodes) ==> stationCodes == old(stationCodes)
      ensures code !in old(stationCodes) ==> stationCodes == old(stationCodes) + [code]
      ensures NoDup(old(stationCodes)) ==> NoDup(stationCodes)
      ensures name == old(name) && enName == old(enName) && color == old(color)
    {
      if code !in stationCodes {
        InsertAtSpec(stationCodes, |stationCodes|, code);
        assert InsertAt(stationCodes, |stationCodes|, code) == stationCodes + [code];
        stationCodes := stationCodes + [code];
      }
    }

    /**
     * insertStation: unless the code is already on the line, puts it at
     * index when 0 <= index <= size and at the end otherwise.
     */
    method InsertStation(index: int, code: string)
      modifies this
      ensures code in old(stationCodes) ==> stationCodes == old(stationCodes)
      ensures code !in old(stationCodes) && 0 <= index <= |old(stationCodes)| ==> stationCodes == InsertAt(old(stationCodes), index, code)
      ensures code !in old(stationCodes) && !(0 <= index <= |old(stationCodes)|) ==> stationCodes == old(stationCodes) + [code]
      ensures NoDup(old(stationCodes)) ==> NoDup(stationCodes)
      ensures name == old(name) && enName == old(enName) && color == old(color)
    {
      if code !in stationCodes {
        var at := if 0 <= index <= |stationCodes| then index else |stationCodes|;
        InsertAtSpec(stationCodes, at, code);
        assert InsertAt(stationCodes, |stationCodes|, code) == stationCodes + [code];
        stationCodes := InsertAt(stationCodes, at, code);
      }
    }

    /** removeStation: drops the first occurrence and reports whether the list changed. */
    method RemoveStation(code: string) returns (removed: bool)
      modifies this
      ensures stationCodes == RemoveFirst(old(stationCodes), code)
      ensures removed <==> code in old(stationCodes)
      ensures name == old(name) && enName == old(enName) && color == old(color)
    {
      removed := code in stationCodes;
      stationCodes := RemoveFirst(stationCodes, code);
    }

    function StationCount(): nat
      reads this
    {
      |stationCodes|
    }

    /** getStationOrder: the first index of the code, or -1. */
    function StationOrder(code: string): int
      reads this
    {
      IndexOf(stationCodes, code)
    }

    /** containsStation. */
    predicate ContainsStation(code: string)
      reads this
    {
      code in stationCodes
    }

    /** getAdjacentStations. */
    function AdjacentStations(code: string): Option<Adjacent>
      reads this
    {
      AdjacentOf(stationCodes, code)
    }

    /** isValid: at least two stations. */
    predicate IsValid()
      reads this
    {
      |stationCodes| >= 2
    }

    /** equals: the same id. */
    predicate SameLine(other: Line)
    {
      id == other.id
    }
  }

  /** containsStation holds exactly when getStationOrder is not -1. */
  lemma ContainsIffOrder(l: Line, code: string)
    ensures l.ContainsStation(code) <==> l.StationOrder(code) >= 0
  {
  }

  /**
   * The neighbours are the codes at the positions either side of the first
   * occurrence: a previous one exactly when it is not first, a next one
   * exactly when it is not last, and on a duplicate-free line the code
   * is never its own neighbour.
   */
  lemma AdjacentSpec(l: Line, code: string)
    ensures l.AdjacentStations(code).None? <==> code !in l.stationCodes
    ensures l.AdjacentStations(code).Some? ==>
              var k := l.StationOrder(code);
              var adj := l.AdjacentStations(code).value;
              (adj.prev.Some? <==> k > 0) && (adj.next.Some? <==> k < |l.stationCodes| - 1)
              && (adj.prev.Some? ==> adj.prev.value == l.stationCodes[k - 1])
              && (adj.next.Some? ==> adj.next.value == l.stationCodes[k + 1])
    ensures l.AdjacentStations(code).Some? && NoDup(l.stationCodes) ==>
              var adj := l.AdjacentStations(code).value;
              adj.prev != Some(code) && adj.next != Some(code)
  {
    var k := IndexOf(l.stationCodes, code);
    if k >= 0 && NoDup(l.stationCodes) {
      if k > 0 { assert l.stationCodes[k - 1] != l.stationCodes[k]; }
      if k < |l.stationCodes| - 1 { assert l.stationCodes[k] != l.stationCodes[k + 1]; }
    }
  }
}
