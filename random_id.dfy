// RandomIdGenerator: 16-character identifiers over lower-case letters and
// digits, drawn from a random source. The random source is modelled as a
// fixed stream of draws read through a cursor, so every generator here is
// a function of the stream position it starts at.

module RandomId {
  import opened Wrappers

  /** CHARACTERS: the 26 lower-case letters, then the 10 digits. */
  const Charset: string := "abcdefghijklmnopqrstuvwxyz0123456789"

  /** ID_LENGTH. */
  const IdLength: nat := 16

  /** The attempts generateUniqueId makes before it gives up. */
  const MaxAttempts: nat := 100

  /** A lower-case ASCII letter or an ASCII digit. */
  predicate IsIdChar(c: char)
  {
    ('a' <= c <= 'z') || ('0' <= c <= '9')
  }

  lemma CharsetChars(k: nat)
    requires k < |Charset|
    ensures IsIdChar(Charset[k])
  {
  }

  /**
   * The random source: draws(i) is the value behind the i-th call of
   * nextInt, which reduces it below its bound; pos counts the calls made.
   */
  class Rng {
    const draws: nat -> nat
    var pos: nat

    constructor (draws: nat -> nat)
      ensures this.draws == draws && pos == 0
    {
      this.draws := draws;
      pos := 0;
    }

    /** nextInt(bound): the next draw, reduced below bound. */
    method NextInt(bound: nat) returns (r: nat)
      requires bound > 0
      modifies this
      ensures r == draws(old(pos)) % bound && r < bound
      ensures pos == old(pos) + 1
    {
      r := draws(pos) % bound;
      pos := pos + 1;
    }
  }

  /** The n characters picked by the draws at positions from, from + 1, .... */
  function Drawn(draws: nat -> nat, from: nat, n: nat): (s: string)
    ensures |s| == n
  {
    seq(n, i requires 0 <= i < n => Charset[draws(from + i) % |Charset|])
  }

  /** Drawn characters are all letters or digits. */
  lemma DrawnChars(draws: nat -> nat, from: nat, n: nat)
    ensures forall i :: 0 <= i < n ==> IsIdChar(Drawn(draws, from, n)[i])
  {
    forall i | 0 <= i < n
      ensures IsIdChar(Drawn(draws, from, n)[i])
    {
      CharsetChars(draws(from + i) % |Charset|);
    }
  }

  /** The StringBuilder loop shared by the generators: n characters, one draw each. */
  method RandomChars(rng: Rng, n: nat) returns (s: string)
    modifies rng
    ensures s == Drawn(rng.draws, old(rng.pos), n)
    ensures rng.pos == old(rng.pos) + n
  {
    ghost var p0 := rng.pos;
    s := "";
    for i := 0 to n
      invariant rng.pos == p0 + i
      invariant s == Drawn(rng.draws, p0, i)
    {
      var index := rng.NextInt(|Charset|);
      s := s + [Charset[index]];
      assert s == Drawn(rng.draws, p0, i + 1);
    }
  }

  /** isValidId: exactly 16 characters, each a lower-case letter or a digit. */
  predicate IsValidId(id: Option<string>)
  {
    id.Some? && |id.value| == IdLength && forall i :: 0 <= i < |id.value| ==> IsIdChar(id.value[i])
  }

  /** isValidId's scan: null and a wrong length fail, then the first bad character fails. */
  method CheckId(id: Option<string>) returns (ok: bool)
    ensures ok <==> IsValidId(id)
  {
    if id.None? || |id.value| != IdLength {
      return false;
    }
    var s := id.value;
    for i := 0 to |s|
      invariant forall j :: 0 <= j < i ==> IsIdChar(s[j])
    {
      if !IsIdChar(s[i]) {
        return false;
      }
    }
    return true;
  }

  /** generateId: 16 drawn characters, which always pass isValidId. */
  method GenerateId(rng: Rng) returns (id: string)
    modifies rng
    ensures id == Drawn(rng.draws, old(rng.pos), IdLength) && rng.pos == old(rng.pos) + IdLength
    ensures IsValidId(Some(id))
  {
    id := RandomChars(rng, IdLength);
    DrawnChars(rng.draws, old(rng.pos), IdLength);
  }

  /** generateId(length): throws (None) for a non-positive length, else that many drawn characters. */
  method GenerateIdOfLength(rng: Rng, length: int) returns (id: Option<string>)
    modifies rng
    ensures length <= 0 <==> id.None?
    ensures length <= 0 ==> rng.pos == old(rng.pos)
    ensures length > 0 ==> id == Some(Drawn(rng.draws, old(rng.pos), length)) && rng.pos == old(rng.pos) + length
  {
    if length <= 0 {
      return None;
    }
    var s := RandomChars(rng, length);
    id := Some(s);
  }

  /**
   * What generateUniqueId returns when its k-th attempt (from 0) is next:
   * the first drawn id not in existing, or None (IllegalStateException)
   * once MaxAttempts attempts were all taken.
   */
  function UniqueFrom(draws: nat -> nat, from: nat, existing: set<string>, k: nat): Option<string>
    requires k <= MaxAttempts
    decreases MaxAttempts - k
  {
    if k == MaxAttempts then None
    else
      var id := Drawn(draws, from + IdLength * k, IdLength);
      if id !in existing then Some(id) else UniqueFrom(draws, from, existing, k + 1)
  }

  /**
   * How many ids generateUniqueId draws when its k-th attempt (from 0) is
   * next: up to and including the first one not in existing, or one more
   * than MaxAttempts when it throws, since the id that trips the attempt
   * counter is drawn before the counter is checked.
   */
  function AttemptsUsed(draws: nat -> nat, from: nat, existing: set<string>, k: nat): (n: nat)
    requires k <= MaxAttempts
    ensures k < n <= MaxAttempts + 1
    ensures n == MaxAttempts + 1 <==> UniqueFrom(draws, from, existing, k).None?
    ensures n <= MaxAttempts ==> UniqueFrom(draws, from, existing, k) == Some(Drawn(draws, from + IdLength * (n - 1), IdLength))
    decreases MaxAttempts - k
  {
    if k == MaxAttempts then MaxAttempts + 1
    else if Drawn(draws, from + IdLength * k, IdLength) !in existing then k + 1
    else AttemptsUsed(draws, from, existing, k + 1)
  }

  /**
   * generateUniqueId's outcome: an id it returns is valid and not in
   * existing, and it throws only when every one of the 100 attempts drew an
   * existing id.
   */
  lemma {:induction false} UniqueFromSpec(draws: nat -> nat, from: nat, existing: set<string>, k: nat)
    requires k <= MaxAttempts
    ensures var r := UniqueFrom(draws, from, existing, k);
      && (r.Some? ==> r.value !in existing && IsValidId(r))
      && (r.None? <==> forall j :: k <= j < MaxAttempts ==> Drawn(draws, from + IdLength * j, IdLength) in existing)
    decreases MaxAttempts - k
  {
    if k < MaxAttempts {
      UniqueFromSpec(draws, from, existing, k + 1);
      DrawnChars(draws, from + IdLength * k, IdLength);
      var id := Drawn(draws, from + IdLength * k, IdLength);
      if id in existing && UniqueFrom(draws, from, existing, k + 1).None? {
        forall j | k <= j < MaxAttempts
          ensures Drawn(draws, from + IdLength * j, IdLength) in existing
        {
          if j > k {
            assert k + 1 <= j < MaxAttempts;
          }
        }
      }
    }
  }

  /**
   * generateUniqueId: draw ids until one is not in existingIds; the 101st
   * draw throws instead of being checked. Each attempt takes 16 draws.
   */
  method GenerateUniqueId(rng: Rng, existing: set<string>) returns (id: Option<string>)
    modifies rng
    ensures id == UniqueFrom(rng.draws, old(rng.pos), existing, 0)
    ensures rng.pos == old(rng.pos) + IdLength * AttemptsUsed(rng.draws, old(rng.pos), existing, 0)
  {
    ghost var p0 := rng.pos;
    var attempts := 0;
    while true
      invariant attempts <= MaxAttempts
      invariant rng.pos == p0 + IdLength * attempts
      invariant UniqueFrom(rng.draws, p0, existing, attempts) == UniqueFrom(rng.draws, p0, existing, 0)
      invariant AttemptsUsed(rng.draws, p0, existing, attempts) == AttemptsUsed(rng.draws, p0, existing, 0)
      decreases MaxAttempts - attempts
    {
      var candidate := GenerateId(rng);
      attempts := attempts + 1;
      if attempts > MaxAttempts {
        return None;
      }
      if candidate !in existing {
        return Some(candidate);
      }
    }
  }
}
