/**
 * The server's registry (manager/NetworkManager.java): three in-memory maps
 * from station code to station, from line id to line, and from a
 * direction-free segment key to fare. The source keeps them in static
 * fields; here one object holds them. Loading and saving the JSON files is
 * not part of this model: the registry starts empty, as after a failed load.
 */
module Network {
  import opened Wrappers
  import opened Text
  import opened FareData
  import opened StationData
  import opened LineData

  /**
   * getFareKey: the two codes joined with '-', the one that sorts first
   * (String.compareTo) in front, so that both directions share a key.
   */
  function FareKey(a: string, b: string): string
  {
    if LexLe(a, b) then a + "-" + b else b + "-" + a
  }

  /** The key does not depend on the order of the codes. */
  lemma FareKeySymmetric(a: string, b: string)
    ensures FareKey(a, b) == FareKey(b, a)
  {
    LexLeTotal(a, b);
    if LexLe(a, b) && LexLe(b, a) {
      LexLeAntisymmetric(a, b);
    }
  }

  /**
   * The key is not injective: codes may themselves contain '-', so the
   * segment between "a-b" and "c" and the segment between "a" and "b-c"
   * share the key "a-b-c".
   */
  lemma FareKeyCollides()
    ensures FareKey("a-b", "c") == FareKey("a", "b-c") == "a-b-c"
    ensures !Fare("a-b", "c", 1).IsForSegmentBidirectional("a", "b-c")
  {
    assert LexLe("a-b", "c");
    assert LexLe("a", "b-c");
  }

  /**
   * normalizeFare: the same fare with its codes in key order, reversing it
   * when the first sorts after the second.
   */
  function NormalizeFare(f: Fare): (r: Fare)
    ensures LexLe(r.from, r.to) && r.price == f.price
    ensures r.IsForSegmentBidirectional(f.from, f.to)
    ensures FareKey(r.from, r.to) == FareKey(f.from, f.to)
    ensures r.IsValid() <==> f.IsValid()
  {
    FareKeySymmetric(f.from, f.to);
    if LexLe(f.from, f.to) then f
    else
      LexLeTotal(f.from, f.to);
      f.Symmetric()
  }

  /**
   * getFare: the fare stored under the pair's key. The source retries with
   * the reversed key when the first lookup fails; the two keys are always
   * the same, so the retry never finds anything new.
   */
  function LookupFare(fares: map<string, Fare>, a: string, b: string): Option<Fare>
  {
    var key := FareKey(a, b);
    if key in fares then Some(fares[key])
    else
      var reverseKey := FareKey(b, a);
      if reverseKey != key && reverseKey in fares then Some(fares[reverseKey]) else None
  }

  /** A lookup finds the same fare whichever way round the codes are given. */
  lemma LookupFareSymmetric(fares: map<string, Fare>, a: string, b: string)
    ensures LookupFare(fares, a, b) == LookupFare(fares, b, a)
    ensures LookupFare(fares, a, b).Some? <==> FareKey(a, b) in fares
  {
    FareKeySymmetric(a, b);
  }

  /** Every stored fare sits under its own key, with its codes in key order. */
  ghost predicate FaresNormalized(fares: map<string, Fare>)
  {
    forall k :: k in fares ==> k == FareKey(fares[k].from, fares[k].to) && LexLe(fares[k].from, fares[k].to)
  }

  /** Every stored fare has a positive price: addFare and updateFare refuse any other. */
  ghost predicate FaresPositive(fares: map<string, Fare>)
  {
    forall k :: k in fares ==> fares[k].price > 0
  }

  /** The registry's checks on stations, as Issue values rather than formatted messages. */
  datatype Issue = UnknownLineStation(lineId: string, code: string) | UnknownFareFrom(code: string) | UnknownFareTo(code: string)

  class Registry {
    var stations: map<string, Station>
    var lines: map<string, Line>
    var fares: map<string, Fare>

    /**
     * What every operation keeps: stations under their code, lines under
     * their id, and fares normalized under their key with positive prices.
     */
    ghost predicate Valid()
      reads this
    {
      (forall k :: k in stations ==> stations[k].code == k)
      && (forall k :: k in lines ==> lines[k].id == k)
      && FaresNormalized(fares)
      && FaresPositive(fares)
    }

    constructor ()
      ensures stations == map[] && lines == map[] && fares == map[]
      ensures Valid()
    {
      stations := map[];
      lines := map[];
      fares := map[];
    }

    // ---------------- stations ----------------

    /**
     * addStation: refuses an empty code or a position outside the world;
     * otherwise stores the station under its code, replacing any station
     * already there.
     */
    method AddStation(s: Station) returns (ok: bool)
      requires Valid()
      modifies this
      ensures Valid()
      ensures ok <==> s.code != "" && s.IsValidCoordinate()
      ensures ok ==> stations == old(stations)[s.code := s]
      ensures !ok ==> stations == old(stations)
      ensures lines == old(lines) && fares == old(fares)
    {
      if s.code == "" || !s.IsValidCoordinate() {
        return false;
      }
      stations := stations[s.code := s];
      ok := true;
    }

    /**
     * removeStation: refuses an unknown code; otherwise removes the first
     * occurrence of the code from every line, drops every fare touching the
     * code, and finally the station.
     */
    method RemoveStation(code: string) returns (ok: bool)
      requires Valid()
      modifies this, lines.Values
      ensures Valid()
      ensures ok <==> code in old(stations)
      ensures ok ==> stations == old(stations) - {code}
      ensures ok ==> fares == FaresWithout(old(fares), code)
      ensures ok ==> forall l :: l in old(lines).Values ==> l.stationCodes == RemoveFirst(old(l.stationCodes), code)
      ensures !ok ==> stations == old(stations) && fares == old(fares)
      ensures !ok ==> forall l :: l in old(lines).Values ==> l.stationCodes == old(l.stationCodes)
      ensures lines == old(lines)
    {
      if code !in stations {
        return false;
      }
      var todo := lines.Values;
      while todo != {}
        invariant todo <= lines.Values
        invariant lines == old(lines) && stations == old(stations) && fares == old(fares)
        invariant forall l :: l in lines.Values && l !in todo ==> l.stationCodes == RemoveFirst(old(l.stationCodes), code)
        invariant forall l :: l in todo ==> l.stationCodes == old(l.stationCodes)
        decreases todo
      {
        var l :| l in todo;
        var _ := l.RemoveStation(code);
        todo := todo - {l};
      }
      RemoveFaresInvolvingStation(code);
      stations := stations - {code};
      ok := true;
    }

    /**
     * removeFaresInvolvingStation: first collects the keys of the fares
     * with the code at either end, then deletes them.
     */
    method RemoveFaresInvolvingStation(code: string)
      requires Valid()
      modifies this
      ensures Valid()
      ensures fares == FaresWithout(old(fares), code)
      ensures stations == old(stations) && lines == old(lines)
    {
      var toRemove: set<string> := {};
      var unseen := fares.Keys;
      while unseen != {}
        invariant unseen <= fares.Keys
        invariant fares == old(fares) && stations == old(stations) && lines == old(lines)
        invariant toRemove == set k | k in fares && k !in unseen && (fares[k].from == code || fares[k].to == code)
        decreases unseen
      {
        var k :| k in unseen;
        if fares[k].from == code || fares[k].to == code {
          toRemove := toRemove + {k};
        }
        unseen := unseen - {k};
      }
      ghost var before := fares;
      var pending := toRemove;
      while pending != {}
        invariant pending <= toRemove
        invariant stations == old(stations) && lines == old(lines)
        invariant fares == map k | k in before && k !in (toRemove - pending) :: before[k]
        decreases pending
      {
        var k :| k in pending;
        fares := fares - {k};
        pending := pending - {k};
      }
      assert fares == FaresWithout(before, code);
    }

    /** hasStation. */
    predicate HasStation(code: string)
      reads this
    {
      code in stations
    }

    /** getStation: the station stored under the code, or null (None). */
    function GetStation(code: string): Option<Station>
      reads this
    {
      if code in stations then Some(stations[code]) else None
    }

    /** updateStation: replaces a station only when its code is already registered. */
    method UpdateStation(s: Station) returns (ok: bool)
      requires Valid()
      modifies this
      ensures Valid()
      ensures ok <==> s.code in old(stations)
      ensures ok ==> stations == old(stations)[s.code := s]
      ensures !ok ==> stations == old(stations)
      ensures lines == old(lines) && fares == old(fares)
    {
      if s.code !in stations {
        return false;
      }
      stations := stations[s.code := s];
      ok := true;
    }

    // ---------------- lines ----------------

    /**
     * addLine: refuses an empty id; otherwise stores the line under its id,
     * even when it names stations that are not registered (validateData
     * reports those).
     */
    method AddLine(l: Line) returns (ok: bool)
      requires Valid()
      modifies this
      ensures Valid()
      ensures ok <==> l.id != ""
      ensures ok ==> lines == old(lines)[l.id := l]
      ensures !ok ==> lines == old(lines)
      ensures stations == old(stations) && fares == old(fares)
    {
      if l.id == "" {
        return false;
      }
      lines := lines[l.id := l];
      ok := true;
    }

    /** removeLine: deletes the line under the id, failing when there is none. */
    method RemoveLine(id: string) returns (ok: bool)
      requires Valid()
      modifies this
      ensures Valid()
      ensures ok <==> id in old(lines)
      ensures lines == old(lines) - {id}
      ensures stations == old(stations) && fares == old(fares)
    {
      ok := id in lines;
      lines := lines - {id};
    }

    /** getLine: the line stored under the id, or null (None). */
    function GetLine(id: string): Option<Line>
      reads this
    {
      if id in lines then Some(lines[id]) else None
    }

    /** hasLine. */
    predicate HasLine(id: string)
      reads this
    {
      id in lines
    }

    /** updateLine: replaces a line only when its id is already registered. */
    method UpdateLine(l: Line) returns (ok: bool)
      requires Valid()
      modifies this
      ensures Valid()
      ensures ok <==> l.id in old(lines)
      ensures ok ==> lines == old(lines)[l.id := l]
      ensures !ok ==> lines == old(lines)
      ensures stations == old(stations) && fares == old(fares)
    {
      if l.id !in lines {
        return false;
      }
      lines := lines[l.id := l];
      ok := true;
    }

    // ---------------- fares ----------------

    /**
     * addFare: refuses an invalid fare, a fare naming an unregistered
     * station, and a pair whose key is already taken (in either direction);
     * otherwise stores the normalized fare under its key and changes nothing
     * else.
     */
    method AddFare(f: Fare) returns (ok: bool)
      requires Valid()
      modifies this
      ensures Valid()
      ensures ok <==> f.IsValid() && f.from in stations && f.to in stations && FareKey(f.from, f.to) !in old(fares)
      ensures ok ==> fares == old(fares)[FareKey(f.from, f.to) := NormalizeFare(f)]
      ensures !ok ==> fares == old(fares)
      ensures stations == old(stations) && lines == old(lines)
    {
      if !f.IsValid() {
        return false;
      }
      if !HasStation(f.from) || !HasStation(f.to) {
        return false;
      }
      var normalized := NormalizeFare(f);
      var key := FareKey(normalized.from, normalized.to);
      if key in fares {
        return false;
      }
      fares := fares[key := normalized];
      ok := true;
    }

    /** addBidirectionalFare: the same as addFare, since keys are direction-free. */
    method AddBidirectionalFare(f: Fare) returns (ok: bool)
      requires Valid()
      modifies this
      ensures Valid()
      ensures ok <==> f.IsValid() && f.from in stations && f.to in stations && FareKey(f.from, f.to) !in old(fares)
      ensures ok ==> fares == old(fares)[FareKey(f.from, f.to) := NormalizeFare(f)]
      ensures !ok ==> fares == old(fares)
      ensures stations == old(stations) && lines == old(lines)
    {
      ok := AddFare(f);
    }

    /** removeFare: deletes only the pair's key, failing when it is absent. */
    method RemoveFare(a: string, b: string) returns (ok: bool)
      requires Valid()
      modifies this
      ensures Valid()
      ensures ok <==> FareKey(a, b) in old(fares)
      ensures fares == old(fares) - {FareKey(a, b)}
      ensures stations == old(stations) && lines == old(lines)
    {
      var key := FareKey(a, b);
      ok := key in fares;
      fares := fares - {key};
    }

    /** getFare. */
    function GetFare(a: string, b: string): Option<Fare>
      reads this
    {
      LookupFare(fares, a, b)
    }

    /** hasFare. */
    predicate HasFare(a: string, b: string)
      reads this
    {
      LookupFare(fares, a, b).Some?
    }

    /**
     * updateFare: refuses an invalid fare and a pair with no stored fare;
     * otherwise replaces the stored fare by the normalized new one.
     */
    method UpdateFare(f: Fare) returns (ok: bool)
      requires Valid()
      modifies this
      ensures Valid()
      ensures ok <==> f.IsValid() && FareKey(f.from, f.to) in old(fares)
      ensures ok ==> fares == old(fares)[FareKey(f.from, f.to) := NormalizeFare(f)]
      ensures !ok ==> fares == old(fares)
      ensures stations == old(stations) && lines == old(lines)
    {
      if !f.IsValid() {
        return false;
      }
      var normalized := NormalizeFare(f);
      var key := FareKey(normalized.from, normalized.to);
      if key !in fares {
        return false;
      }
      fares := fares[key := normalized];
      ok := true;
    }

    /**
     * validateData: one issue for each code a line lists that is not a
     * registered station, and one for each fare endpoint that is not.
     */
    method ValidateData() returns (issues: seq<Issue>)
      ensures forall id, c :: UnknownLineStation(id, c) in issues <==> id in lines && c in lines[id].stationCodes && c !in stations
      ensures forall c :: UnknownFareFrom(c) in issues <==> c !in stations && exists k :: k in fares && fares[k].from == c
      ensures forall c :: UnknownFareTo(c) in issues <==> c !in stations && exists k :: k in fares && fares[k].to == c
    {
      issues := [];
      var unseenLines := lines.Keys;
      while unseenLines != {}
        invariant unseenLines <= lines.Keys
        invariant forall i :: i in issues ==> i.UnknownLineStation?
        invariant forall id, c :: UnknownLineStation(id, c) in issues <==> id in lines && id !in unseenLines && c in lines[id].stationCodes && c !in stations
        decreases unseenLines
      {
        var id :| id in unseenLines;
        var codes := lines[id].stationCodes;
        var j := 0;
        while j < |codes|
          invariant 0 <= j <= |codes|
          invariant forall i :: i in issues ==> i.UnknownLineStation?
          invariant forall id', c :: UnknownLineStation(id', c) in issues <==>
                      (id' in lines && id' !in unseenLines && c in lines[id'].stationCodes && c !in stations)
                      || (id' == id && c in codes[..j] && c !in stations)
        {
          if codes[j] !in stations {
            issues := issues + [UnknownLineStation(id, codes[j])];
          }
          assert codes[..j + 1] == codes[..j] + [codes[j]];
          j := j + 1;
        }
        assert codes[..j] == codes;
        unseenLines := unseenLines - {id};
      }
      var unseenFares := fares.Keys;
      while unseenFares != {}
        invariant unseenFares <= fares.Keys
        invariant forall id, c :: UnknownLineStation(id, c) in issues <==> id in lines && c in lines[id].stationCodes && c !in stations
        invariant forall c :: UnknownFareFrom(c) in issues <==> c !in stations && exists k :: k in fares && k !in unseenFares && fares[k].from == c
        invariant forall c :: UnknownFareTo(c) in issues <==> c !in stations && exists k :: k in fares && k !in unseenFares && fares[k].to == c
        decreases unseenFares
      {
        var k :| k in unseenFares;
        var f := fares[k];
        if f.from !in stations {
          issues := issues + [UnknownFareFrom(f.from)];
        }
        if f.to !in stations {
          issues := issues + [UnknownFareTo(f.to)];
        }
        unseenFares := unseenFares - {k};
      }
    }
  }

  /** The fares left after removing every fare with the code at either end. */
  function FaresWithout(fares: map<string, Fare>, code: string): (r: map<string, Fare>)
    ensures forall k :: k in r <==> k in fares && fares[k].from != code && fares[k].to != code
    ensures forall k :: k in r ==> r[k] == fares[k]
  {
    map k | k in fares && fares[k].from != code && fares[k].to != code :: fares[k]
  }

  /**
   * After removeStation no fare mentions the removed code, and every other
   * fare is still there.
   */
  lemma FaresWithoutSpec(fares: map<string, Fare>, code: string, a: string, b: string)
    requires FaresNormalized(fares)
    ensures FaresNormalized(FaresWithout(fares, code))
    ensures LookupFare(FaresWithout(fares, code), a, b).Some? ==> LookupFare(FaresWithout(fares, code), a, b).value.from != code
    ensures a != code && b != code && LookupFare(fares, a, b).Some? && LookupFare(fares, a, b).value.IsForSegmentBidirectional(a, b) ==>
              LookupFare(FaresWithout(fares, code), a, b) == LookupFare(fares, a, b)
  {
    FareKeySymmetric(a, b);
  }

  /**
   * Once addFare has stored a fare for a pair, a second addFare for the
   * same pair in either direction fails and leaves the fares as they are.
   */
  lemma AddFareRefusesExisting(fares: map<string, Fare>, f: Fare, g: Fare)
    requires g.IsForSegmentBidirectional(f.from, f.to)
    ensures FareKey(g.from, g.to) in fares[FareKey(f.from, f.to) := NormalizeFare(f)]
  {
    FareKeySymmetric(f.from, f.to);
  }
}
