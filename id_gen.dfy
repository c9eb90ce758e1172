// IdGenerator: random identifiers over lower-case letters and digits that
// avoid the ids it has handed out or been told about, plus the id
// validator and normaliser. The registry of known ids is the object's one
// field; the random source is a RandomId.Rng and the clock a parameter.

module IdGen {
  import opened Wrappers
  import opened Text
  import opened RandomId

  /** The default length for a non-positive request and for normalizeId's fallback. */
  const DefaultLength: nat := 8

  /** MAX_ATTEMPTS: the attempt that stops the retry loop. */
  const MaxTries: nat := 100

  /** A character isValidId accepts: a lower-case letter, a digit or '_'. */
  predicate IsNameChar(c: char)
  {
    IsIdChar(c) || c == '_'
  }

  /** isValidId: non-null, non-empty, every character a lower-case letter, digit or '_'. */
  predicate IsValidName(id: Option<string>)
  {
    id.Some? && id.value != "" && forall i :: 0 <= i < |id.value| ==> IsNameChar(id.value[i])
  }

  /** isValidId's scan, stopping at the first character it refuses. */
  method CheckName(id: Option<string>) returns (ok: bool)
    ensures ok <==> IsValidName(id)
  {
    if id.None? || id.value == "" {
      return false;
    }
    var s := id.value;
    for i := 0 to |s|
      invariant forall j :: 0 <= j < i ==> IsNameChar(s[j])
    {
      if !IsNameChar(s[i]) {
        return false;
      }
    }
    return true;
  }

  /** The clock's contribution to a last-attempt id: currentTimeMillis() % 10000 in decimal. */
  function ClockSuffix(clock: nat): (s: string)
    ensures s != [] && AllDigits(s)
  {
    NatToString(clock % 10000)
  }

  /**
   * What generateRandomId returns when attempt k (from 0) is next and the
   * random source stands at position from, each attempt drawing len
   * characters: the first attempt not yet known, except that attempt 99
   * (the 100th) always gets the clock suffix and stops.
   */
  function FreshFrom(draws: nat -> nat, from: nat, len: nat, known: set<string>, clock: nat, k: nat): string
    requires k < MaxTries
    decreases MaxTries - k
  {
    var id := Drawn(draws, from, len);
    if k == MaxTries - 1 then id + ClockSuffix(clock)
    else if id !in known then id
    else FreshFrom(draws, from + len, len, known, clock, k + 1)
  }

  /**
   * generateRandomId's promise: a valid id of at least len characters; one
   * of exactly len characters is not yet known; a longer one is an attempt
   * followed by the clock suffix.
   */
  lemma {:induction false} FreshFromSpec(draws: nat -> nat, from: nat, len: nat, known: set<string>, clock: nat, k: nat)
    requires k < MaxTries && len > 0
    ensures var r := FreshFrom(draws, from, len, known, clock, k);
      && IsValidName(Some(r))
      && |r| >= len
      && (|r| == len ==> r !in known)
      && (|r| > len ==> r[len..] == ClockSuffix(clock))
    decreases MaxTries - k
  {
    var id := Drawn(draws, from, len);
    DrawnChars(draws, from, len);
    if k == MaxTries - 1 {
      var r := id + ClockSuffix(clock);
      assert r[len..] == ClockSuffix(clock);
      forall i | 0 <= i < |r|
        ensures IsNameChar(r[i])
      {
        if i >= len {
          assert r[i] == ClockSuffix(clock)[i - len];
        }
      }
    } else if id in known {
      FreshFromSpec(draws, from + len, len, known, clock, k + 1);
    }
  }

  /** The set of ids handed out or registered (generatedIds). */
  class IdRegistry {
    var known: set<string>

    constructor ()
      ensures known == {}
    {
      known := {};
    }

    /**
     * generateRandomId: a non-positive length means 8; draw ids until one is
     * not known, the 100th attempt taking the clock suffix instead; record
     * the id returned.
     */
    method GenerateRandomId(rng: Rng, clock: nat, length: int) returns (id: string)
      modifies this, rng
      ensures var len := if length <= 0 then DefaultLength else length;
        id == FreshFrom(rng.draws, old(rng.pos), len, old(known), clock, 0)
      ensures known == old(known) + {id}
    {
      var len: nat := if length <= 0 then DefaultLength else length;
      ghost var p0 := rng.pos;
      var attempts := 0;
      while true
        invariant attempts < MaxTries && known == old(known)
        invariant FreshFrom(rng.draws, rng.pos, len, known, clock, attempts) == FreshFrom(rng.draws, p0, len, known, clock, 0)
        decreases MaxTries - attempts
      {
        id := RandomChars(rng, len);
        attempts := attempts + 1;
        if attempts >= MaxTries {
          id := id + ClockSuffix(clock);
          break;
        }
        if id !in known {
          break;
        }
      }
      known := known + {id};
    }

    /** generateLineId: "l_" and a 6-character random id. */
    method GenerateLineId(rng: Rng, clock: nat) returns (id: string)
      modifies this, rng
      ensures var r := FreshFrom(rng.draws, old(rng.pos), 6, old(known), clock, 0);
        id == "l_" + r && known == old(known) + {r}
    {
      var r := GenerateRandomId(rng, clock, 6);
      id := "l_" + r;
    }

    /** generateStationCode: "s_" and a 6-character random id. */
    method GenerateStationCode(rng: Rng, clock: nat) returns (id: string)
      modifies this, rng
      ensures var r := FreshFrom(rng.draws, old(rng.pos), 6, old(known), clock, 0);
        id == "s_" + r && known == old(known) + {r}
    {
      var r := GenerateRandomId(rng, clock, 6);
      id := "s_" + r;
    }

    /** generateShortId: a 4-character random id. */
    method GenerateShortId(rng: Rng, clock: nat) returns (id: string)
      modifies this, rng
      ensures id == FreshFrom(rng.draws, old(rng.pos), 4, old(known), clock, 0) && known == old(known) + {id}
    {
      id := GenerateRandomId(rng, clock, 4);
    }

    /** generatePrefixedId: prefix, '_' and a random id of the given length. */
    method GeneratePrefixedId(rng: Rng, clock: nat, prefix: string, randomLength: int) returns (id: string)
      modifies this, rng
      ensures var len := if randomLength <= 0 then DefaultLength else randomLength;
        var r := FreshFrom(rng.draws, old(rng.pos), len, old(known), clock, 0);
        id == prefix + "_" + r && known == old(known) + {r}
    {
      var r := GenerateRandomId(rng, clock, randomLength);
      id := prefix + "_" + r;
    }

    /**
     * generateTimestampId: the timestamp in base 36 followed by a
     * 2-character random id.
     */
    method GenerateTimestampId(rng: Rng, clock: nat) returns (id: string)
      modifies this, rng
      ensures var r := FreshFrom(rng.draws, old(rng.pos), 2, old(known), clock, 0);
        id == Base36(clock) + r && known == old(known) + {r}
    {
      var base := Base36(clock);
      var r := GenerateRandomId(rng, clock, 2);
      id := base + r;
    }

    /** generateHumanReadableId: a drawn letter followed by a 5-character random id. */
    method GenerateHumanReadableId(rng: Rng, clock: nat) returns (id: string)
      modifies this, rng
      ensures |id| > 0 && 'a' <= id[0] <= 'z'
      ensures var r := FreshFrom(rng.draws, old(rng.pos) + 1, 5, old(known), clock, 0);
        id == [Charset[rng.draws(old(rng.pos)) % 26]] + r && known == old(known) + {r}
    {
      var k := rng.NextInt(26);
      var first := Charset[k];
      var r := GenerateRandomId(rng, clock, 5);
      id := [first] + r;
    }

    /**
     * normalizeId: null falls back to an 8-character random id; otherwise
     * the lower-cased id with every other character replaced by '_', unless
     * that is empty or "_", which also fall back.
     */
    method NormalizeId(rng: Rng, clock: nat, id: Option<string>) returns (r: string)
      modifies this, rng
      ensures IsValidName(Some(r))
      ensures id.Some? && Normalized(id.value) != "" && Normalized(id.value) != "_" ==>
                r == Normalized(id.value) && known == old(known) && rng.pos == old(rng.pos)
      ensures id.None? || Normalized(id.value) == "" || Normalized(id.value) == "_" ==>
                r == FreshFrom(rng.draws, old(rng.pos), DefaultLength, old(known), clock, 0) && known == old(known) + {r}
    {
      if id.None? {
        r := GenerateRandomId(rng, clock, DefaultLength);
        FreshFromSpec(rng.draws, old(rng.pos), DefaultLength, old(known), clock, 0);
        return;
      }
      var normalized := NormalizeChars(id.value);
      if normalized == "" || normalized == "_" {
        r := GenerateRandomId(rng, clock, DefaultLength);
        FreshFromSpec(rng.draws, old(rng.pos), DefaultLength, old(known), clock, 0);
        return;
      }
      NormalizedValid(id.value);
      r := normalized;
    }

    /** clearCache. */
    method ClearCache()
      modifies this
      ensures known == {}
    {
      known := {};
    }

    /** registerExistingId: records a non-null, non-empty id. */
    method RegisterExistingId(id: Option<string>)
      modifies this
      ensures known == if id.Some? && id.value != "" then old(known) + {id.value} else old(known)
    {
      if id.Some? && id.value != "" {
        known := known + {id.value};
      }
    }

    /** registerExistingIds: registers each id in turn. */
    method RegisterExistingIds(ids: seq<Option<string>>)
      modifies this
      ensures known == old(known) + Registrable(ids)
    {
      for i := 0 to |ids|
        invariant known == old(known) + Registrable(ids[..i])
      {
        RegisterExistingId(ids[i]);
        assert ids[..i + 1] == ids[..i] + [ids[i]];
        RegistrableAppend(ids[..i], ids[i]);
      }
      assert ids[..|ids|] == ids;
    }

    /** idExists. */
    predicate IdExists(id: string)
      reads this
    {
      id in known
    }

    /** getStats: the number of known ids and the charset size. */
    function Stats(): string
      reads this
    {
      "已生成ID数量: " + NatToString(|known|) + ", 字符集大小: 36"
    }
  }

  /** The ids registerExistingIds records: the non-null, non-empty ones. */
  function Registrable(ids: seq<Option<string>>): (r: set<string>)
    ensures forall s :: s in r <==> exists i :: 0 <= i < |ids| && ids[i] == Some(s) && s != ""
  {
    if ids == [] then {}
    else (if ids[0].Some? && ids[0].value != "" then {ids[0].value} else {}) + Registrable(ids[1..])
  }

  lemma RegistrableAppend(ids: seq<Option<string>>, id: Option<string>)
    ensures Registrable(ids + [id]) == Registrable(ids) + (if id.Some? && id.value != "" then {id.value} else {})
  {
    var r := ids + [id];
    forall s
      ensures s in Registrable(r) <==> s in Registrable(ids) || (id == Some(s) && s != "")
    {
      if id == Some(s) && s != "" {
        assert r[|ids|] == Some(s);
      }
      if s in Registrable(r) {
        var i :| 0 <= i < |r| && r[i] == Some(s) && s != "";
        if i < |ids| {
          assert ids[i] == Some(s);
        }
      }
      if s in Registrable(ids) {
        var i :| 0 <= i < |ids| && ids[i] == Some(s) && s != "";
        assert r[i] == Some(s);
      }
    }
  }

  /** normalizeId's replacement of one character after lower-casing. */
  function NormalizeChar(c: char): (r: char)
    ensures IsNameChar(r)
    ensures IsNameChar(c) ==> r == c
  {
    var l := LowerChar(c);
    if IsNameChar(l) then l else '_'
  }

  /** normalizeId's rewritten string, before the empty/"_" fallback. */
  function Normalized(s: string): (r: string)
    ensures |r| == |s|
  {
    seq(|s|, i requires 0 <= i < |s| => NormalizeChar(s[i]))
  }

  /** normalizeId's StringBuilder loop. */
  method NormalizeChars(s: string) returns (r: string)
    ensures r == Normalized(s)
  {
    var lower := Lower(s);
    r := "";
    for i := 0 to |lower|
      invariant r == Normalized(s[..i])
    {
      var c := lower[i];
      if IsIdChar(c) || c == '_' {
        r := r + [c];
      } else {
        r := r + ['_'];
      }
      assert r == Normalized(s[..i + 1]);
    }
    assert s[..|s|] == s;
  }

  /** Every non-empty normalized string passes isValidId. */
  lemma NormalizedValid(s: string)
    requires s != ""
    ensures IsValidName(Some(Normalized(s)))
  {
  }

  /** An id that already passes isValidId is left unchanged by normalisation. */
  lemma NormalizeKeepsValid(s: string)
    requires IsValidName(Some(s))
    ensures Normalized(s) == s
  {
    var r := Normalized(s);
    forall i | 0 <= i < |s|
      ensures r[i] == s[i]
    {
      assert IsNameChar(s[i]);
    }
  }

  /** Long.toString(n, 36): digits 0-9 then a-z, most significant first, "0" for 0. */
  function Base36(n: nat): (r: string)
    ensures r != []
    ensures forall i :: 0 <= i < |r| ==> IsIdChar(r[i])
  {
    if n < 36 then [Base36Digit(n)] else Base36(n / 36) + [Base36Digit(n % 36)]
  }

  function Base36Digit(d: nat): (c: char)
    requires d < 36
    ensures IsIdChar(c)
  {
    if d < 10 then ('0' as int + d) as char else ('a' as int + d - 10) as char
  }

  /** The value of one base-36 digit. */
  function Base36Value(c: char): nat
  {
    if '0' <= c <= '9' then c as int - '0' as int
    else if 'a' <= c <= 'z' then c as int - 'a' as int + 10
    else 0
  }

  /** The value a base-36 rendering reads back as. */
  function Base36Read(s: string): nat
  {
    if s == [] then 0 else 36 * Base36Read(s[..|s| - 1]) + Base36Value(s[|s| - 1])
  }

  /** The base-36 rendering reads back as the timestamp it came from. */
  lemma {:induction false} Base36RoundTrip(n: nat)
    ensures Base36Read(Base36(n)) == n
  {
    if n >= 36 {
      Base36RoundTrip(n / 36);
      var r := Base36(n);
      assert r[..|r| - 1] == Base36(n / 36);
    }
  }
}
