/**
 * String helpers shared by the browser scripts and the server: the two
 * notions of trimming (JavaScript's and Java's), ASCII case mapping,
 * splitting on a separator character, decimal digits and the two-digit
 * zero padding used to synthesise station codes.
 */
module Text {
  import opened Wrappers

  // ---------------------------------------------------------------
  // Whitespace and trimming
  // ---------------------------------------------------------------

  /** The characters JavaScript's String.prototype.trim removes. */
  predicate IsJsSpace(c: char)
  {
    c == ' ' || c == '\t' || c == '\n' || c == '\r' || c == '\U{000B}' || c == '\U{000C}'
    || c == '\U{00A0}' || c == '\U{FEFF}' || c == '\U{1680}' || ('\U{2000}' <= c <= '\U{200A}')
    || c == '\U{2028}' || c == '\U{2029}' || c == '\U{202F}' || c == '\U{205F}' || c == '\U{3000}'
  }

  /** The characters Java's String.trim removes: every code unit up to U+0020. */
  predicate IsJavaTrimmed(c: char)
  {
    c <= ' '
  }

  function DropLeading(s: string, isSpace: char -> bool): (r: string)
    ensures |r| <= |s| && r == s[|s| - |r|..]
    ensures r == [] || !isSpace(r[0])
  {
    if s != [] && isSpace(s[0]) then DropLeading(s[1..], isSpace) else s
  }

  /** Only space characters are dropped from the front: a non-space at i survives. */
  lemma {:induction false} DropLeadingKeeps(s: string, isSpace: char -> bool, i: nat)
    requires i < |s| && !isSpace(s[i])
    ensures |s| - |DropLeading(s, isSpace)| <= i
  {
    if s != [] && isSpace(s[0]) {
      DropLeadingKeeps(s[1..], isSpace, i - 1);
    }
  }

  function DropTrailing(s: string, isSpace: char -> bool): (r: string)
    ensures |r| <= |s| && r == s[..|r|]
    ensures r == [] || !isSpace(r[|r| - 1])
  {
    if s != [] && isSpace(s[|s| - 1]) then DropTrailing(s[..|s| - 1], isSpace) else s
  }

  /** Only space characters are dropped from the back: a non-space at i survives. */
  lemma {:induction false} DropTrailingKeeps(s: string, isSpace: char -> bool, i: nat)
    requires i < |s| && !isSpace(s[i])
    ensures i < |DropTrailing(s, isSpace)|
  {
    if s != [] && isSpace(s[|s| - 1]) {
      DropTrailingKeeps(s[..|s| - 1], isSpace, i);
    }
  }

  function Trim(s: string, isSpace: char -> bool): string
  {
    DropTrailing(DropLeading(s, isSpace), isSpace)
  }

  function TrimJs(s: string): string { Trim(s, IsJsSpace) }

  function TrimJava(s: string): string { Trim(s, IsJavaTrimmed) }

  /** Trimming removes only space characters: every other character survives. */
  lemma TrimKeeps(s: string, isSpace: char -> bool, c: char)
    requires c in s && !isSpace(c)
    ensures c in Trim(s, isSpace)
  {
    var i :| 0 <= i < |s| && s[i] == c;
    var l := DropLeading(s, isSpace);
    DropLeadingKeeps(s, isSpace, i);
    var n := |s| - |l|;
    assert l == s[n..];
    var k := i - n;
    assert l[k] == c;
    var t := DropTrailing(l, isSpace);
    DropTrailingKeeps(l, isSpace, k);
    assert t == l[..|t|];
    assert t[k] == c;
  }

  /** Trimming only removes characters: whatever is left comes from the input. */
  lemma TrimSlice(s: string, isSpace: char -> bool)
    ensures forall c :: c in Trim(s, isSpace) ==> c in s
  {
    var l := DropLeading(s, isSpace);
    var t := DropTrailing(l, isSpace);
    forall c | c in t ensures c in s {
      var k :| 0 <= k < |t| && t[k] == c;
      assert l[k] == c;
      assert s[k + |s| - |l|] == c;
    }
  }

  /** A trimmed string is empty or starts and ends with a non-space character. */
  lemma TrimEnds(s: string, isSpace: char -> bool)
    ensures var t := Trim(s, isSpace); t == [] || (!isSpace(t[0]) && !isSpace(t[|t| - 1]))
  {
    var l := DropLeading(s, isSpace);
    var t := DropTrailing(l, isSpace);
    if t != [] {
      assert t[0] == l[0];
    }
  }

  /** A string that neither starts nor ends with a space character is its own trim. */
  lemma TrimFixed(t: string, isSpace: char -> bool)
    requires t == [] || (!isSpace(t[0]) && !isSpace(t[|t| - 1]))
    ensures Trim(t, isSpace) == t
  {
    assert DropLeading(t, isSpace) == t;
  }

  // ---------------------------------------------------------------
  // Case mapping (ASCII letters only)
  // ---------------------------------------------------------------

  function LowerChar(c: char): (r: char)
    ensures 'A' <= c <= 'Z' ==> 'a' <= r <= 'z'
    ensures !('A' <= c <= 'Z') ==> r == c
  {
    if 'A' <= c <= 'Z' then (c as int - 'A' as int + 'a' as int) as char else c
  }

  function Lower(s: string): (r: string)
    ensures |r| == |s|
    ensures forall i :: 0 <= i < |s| ==> r[i] == LowerChar(s[i])
  {
    seq(|s|, i requires 0 <= i < |s| => LowerChar(s[i]))
  }

  /** Lower-casing keeps every character that is not an upper-case ASCII letter. */
  lemma LowerKeeps(t: string, c: char)
    requires c in t && !('A' <= c <= 'Z')
    ensures c in Lower(t)
  {
    var i :| 0 <= i < |t| && t[i] == c;
    assert Lower(t)[i] == c;
  }

  // ---------------------------------------------------------------
  // Prefixes and substrings
  // ---------------------------------------------------------------

  predicate StartsWith(s: string, p: string)
  {
    |p| <= |s| && s[..|p|] == p
  }

  /** k occurs somewhere in s, as JavaScript's s.includes(k) tests. */
  predicate Contains(s: string, k: string)
  {
    StartsWith(s, k) || (s != [] && Contains(s[1..], k))
  }

  // ---------------------------------------------------------------
  // Splitting on one separator character
  // ---------------------------------------------------------------

  /** JavaScript's s.split(sep): every piece, empty ones included. */
  function Split(s: string, sep: char): (r: seq<string>)
    ensures |r| >= 1
  {
    if s == [] then [""]
    else
      var rest := Split(s[1..], sep);
      if s[0] == sep then [""] + rest
      else [[s[0]] + rest[0]] + rest[1..]
  }

  /** No piece contains the separator. */
  lemma {:induction false} SplitPieces(s: string, sep: char)
    ensures forall i :: 0 <= i < |Split(s, sep)| ==> sep !in Split(s, sep)[i]
  {
    if s != [] {
      SplitPieces(s[1..], sep);
      var rest := Split(s[1..], sep);
      if s[0] != sep {
        assert sep !in [s[0]] + rest[0];
      }
    }
  }

  /** The pieces joined back with the separator. */
  function Join(parts: seq<string>, sep: char): string
    requires |parts| >= 1
  {
    if |parts| == 1 then parts[0] else parts[0] + [sep] + Join(parts[1..], sep)
  }

  /** Splitting loses nothing: joining the pieces gives back the input. */
  lemma {:induction false} JoinSplit(s: string, sep: char)
    ensures Join(Split(s, sep), sep) == s
  {
    if s != [] {
      var rest := Split(s[1..], sep);
      JoinSplit(s[1..], sep);
      if s[0] != sep {
        if |rest| == 1 {
          assert Split(s, sep) == [[s[0]] + rest[0]];
        } else {
          var r := Split(s, sep);
          assert r[1..] == rest[1..];
          assert Join(r, sep) == [s[0]] + rest[0] + [sep] + Join(rest[1..], sep);
        }
      }
    }
  }

  /** The first piece is everything before the first separator, and the rest is split on its own. */
  lemma {:induction false} SplitAt(a: string, sep: char, b: string)
    requires sep !in a
    ensures Split(a + [sep] + b, sep) == [a] + Split(b, sep)
  {
    if a == [] {
      assert a + [sep] + b == [sep] + b;
      assert ([sep] + b)[1..] == b;
    } else {
      assert (a + [sep] + b)[0] == a[0];
      assert (a + [sep] + b)[1..] == a[1..] + [sep] + b;
      SplitAt(a[1..], sep, b);
      assert [a[0]] + a[1..] == a;
    }
  }

  /** A string without the separator is a single piece. */
  lemma {:induction false} SplitNone(a: string, sep: char)
    ensures sep !in a ==> Split(a, sep) == [a]
  {
    if a != [] && sep !in a {
      SplitNone(a[1..], sep);
      assert [a[0]] + a[1..] == a;
    }
  }

  /** The first piece is a prefix of the input. */
  lemma {:induction false} SplitFirstIsPrefix(s: string, sep: char)
    ensures StartsWith(s, Split(s, sep)[0])
    ensures |Split(s, sep)| > 1 ==> |Split(s, sep)[0]| < |s| && s[|Split(s, sep)[0]|] == sep
  {
    if s != [] {
      SplitFirstIsPrefix(s[1..], sep);
    }
  }

  /** Java's s.split(sep) for a one-character literal separator: trailing empty pieces are dropped, unless the separator does not occur at all. */
  function JavaSplit(s: string, sep: char): (r: seq<string>)
    ensures sep !in s ==> r == [s]
    ensures sep in s ==> |r| == 0 || r[|r| - 1] != ""
  {
    if sep !in s then [s] else DropTrailingEmpty(Split(s, sep))
  }

  function DropTrailingEmpty(parts: seq<string>): (r: seq<string>)
    ensures |r| <= |parts| && r == parts[..|r|]
    ensures |r| == 0 || r[|r| - 1] != ""
    ensures forall i :: |r| <= i < |parts| ==> parts[i] == ""
  {
    if parts != [] && parts[|parts| - 1] == "" then DropTrailingEmpty(parts[..|parts| - 1]) else parts
  }

  // ---------------------------------------------------------------
  // Decimal digits
  // ---------------------------------------------------------------

  predicate IsDigit(c: char) { '0' <= c <= '9' }

  predicate AllDigits(s: string)
  {
    forall i :: 0 <= i < |s| ==> IsDigit(s[i])
  }

  function DigitChar(d: nat): (c: char)
    requires d < 10
    ensures IsDigit(c)
  {
    ('0' as int + d) as char
  }

  /** The value of a string of decimal digits (0 for the empty string). */
  function DigitsValue(s: string): nat
    requires AllDigits(s)
  {
    if s == [] then 0 else 10 * DigitsValue(s[..|s| - 1]) + (s[|s| - 1] as int - '0' as int)
  }

  /** The decimal rendering of a natural number, without leading zeros. */
  function NatToString(n: nat): (r: string)
    ensures |r| >= 1 && AllDigits(r)
    ensures n >= 10 ==> |r| >= 2
  {
    if n < 10 then [DigitChar(n)] else NatToString(n / 10) + [DigitChar(n % 10)]
  }

  /** The rendering reads back as the number, and starts with '0' only for 0 itself. */
  lemma {:induction false} NatToStringValue(n: nat)
    ensures DigitsValue(NatToString(n)) == n
    ensures NatToString(n)[0] == '0' ==> n == 0
  {
    if n >= 10 {
      NatToStringValue(n / 10);
      var r := NatToString(n);
      assert r[..|r| - 1] == NatToString(n / 10);
    }
  }

  lemma NatToStringInjective(m: nat, n: nat)
    requires NatToString(m) == NatToString(n)
    ensures m == n
  {
    NatToStringValue(m);
    NatToStringValue(n);
  }

  /**
   * Zero padding to two digits, as both JavaScript's String(n).padStart(2,'0')
   * and Java's String.format("%02d", n) render a natural number.
   */
  function Pad2(n: nat): (r: string)
    ensures |r| >= 2 && AllDigits(r)
  {
    if n < 10 then ['0', DigitChar(n)] else NatToString(n)
  }

  /** The padded rendering reads back as the number. */
  lemma Pad2Value(n: nat)
    ensures DigitsValue(Pad2(n)) == n
  {
    var d := Pad2(n);
    if n < 10 {
      assert d[..1] == ['0'];
      assert ['0'][..0] == [];
      assert DigitsValue(['0']) == 0;
    } else {
      NatToStringValue(n);
    }
  }

  /** String(i).padStart(2, '0') for any integer: a negative number is already two characters long. */
  function JsPad2(i: int): (r: string)
    ensures |r| >= 2
  {
    if i >= 0 then Pad2(i) else "-" + NatToString(-i)
  }

  lemma Pad2Injective(m: nat, n: nat)
    requires Pad2(m) == Pad2(n)
    ensures m == n
  {
    Pad2Value(m);
    Pad2Value(n);
  }

  // ---------------------------------------------------------------
  // Number parsing
  // ---------------------------------------------------------------

  /** A non-empty run of digits after an optional sign character. */
  function SignedDigits(t: string): Option<int>
  {
    if |t| >= 2 && t[0] == '-' && AllDigits(t[1..]) then Some(-(DigitsValue(t[1..]) as int))
    else if |t| >= 2 && t[0] == '+' && AllDigits(t[1..]) then Some(DigitsValue(t[1..]))
    else if |t| >= 1 && AllDigits(t) then Some(DigitsValue(t))
    else None
  }

  /**
   * JavaScript's Number(s) on a string, restricted to integers: surrounding
   * whitespace is ignored, a blank string is 0, and anything other than an
   * optionally signed run of decimal digits is NaN (None).
   */
  function JsNumberOfString(s: string): (r: Option<int>)
    ensures TrimJs(s) == "" ==> r == Some(0)
  {
    var t := TrimJs(s);
    if t == "" then Some(0) else SignedDigits(t)
  }

  /** JavaScript's Number(s) || 0 on a string: NaN and 0 both give 0. */
  function JsNumberOr0(s: string): int
  {
    JsNumberOfString(s).GetOr(0)
  }

  /** Without a minus sign the number is never negative. */
  lemma JsNumberOr0NonNegative(s: string)
    requires '-' !in s
    ensures JsNumberOr0(s) >= 0
  {
    TrimSlice(s, IsJsSpace);
  }

  /** A run of digits is a number to JavaScript: its decimal value. */
  lemma JsNumberOfDigits(s: string)
    requires |s| >= 1 && AllDigits(s)
    ensures JsNumberOr0(s) == DigitsValue(s)
  {
    assert !IsJsSpace(s[0]) && !IsJsSpace(s[|s| - 1]);
    assert DropLeading(s, IsJsSpace) == s;
    assert TrimJs(s) == s;
  }

  // ---------------------------------------------------------------
  // Ordering
  // ---------------------------------------------------------------

  /**
   * a sorts before or with b in lexicographic character-code order: Java's
   * a.compareTo(b) <= 0, and the order used here for localeCompare.
   */
  predicate LexLe(a: string, b: string)
    decreases |a|
  {
    a == [] || (b != [] && (a[0] < b[0] || (a[0] == b[0] && LexLe(a[1..], b[1..]))))
  }

  /** Any two strings are comparable. */
  lemma {:induction false} LexLeTotal(a: string, b: string)
    ensures LexLe(a, b) || LexLe(b, a)
    decreases |a|
  {
    if a != [] && b != [] && a[0] == b[0] {
      LexLeTotal(a[1..], b[1..]);
    }
  }

  /** Two strings that each sort with or before the other are equal. */
  lemma {:induction false} LexLeAntisymmetric(a: string, b: string)
    requires LexLe(a, b) && LexLe(b, a)
    ensures a == b
    decreases |a|
  {
    if a != [] {
      LexLeAntisymmetric(a[1..], b[1..]);
    }
  }

  /** The order is transitive. */
  lemma {:induction false} LexLeTrans(a: string, b: string, c: string)
    requires LexLe(a, b) && LexLe(b, c)
    ensures LexLe(a, c)
    decreases |a|
  {
    if a != [] && a[0] == b[0] && b[0] == c[0] {
      LexLeTrans(a[1..], b[1..], c[1..]);
    }
  }

  /** Java's integer division, which truncates toward zero. */
  function JavaDiv(a: int, b: int): int
    requires b > 0
  {
    if a >= 0 then a / b else -((-a) / b)
  }

  const IntMin: int := -0x8000_0000
  const IntMax: int := 0x7fff_ffff

  /** Java's Integer.parseInt(s) on ASCII input: None where it throws NumberFormatException. */
  function JavaParseInt(s: string): (r: Option<int>)
    ensures r.Some? ==> IntMin <= r.value <= IntMax
    ensures r.Some? ==> s != ""
  {
    var v := SignedDigits(s);
    if v.Some? && IntMin <= v.value <= IntMax then v else None
  }
}
