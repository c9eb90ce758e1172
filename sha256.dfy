/**
 * The login page's SHA-256 fallback (used when WebCrypto is missing): the
 * FIPS 180-4 hash of a message's UTF-8 bytes, rendered as lowercase hex.
 * The reference definitions below follow FIPS 180-4 (padding, section 5.1.1;
 * constants, sections 4.2.2 and 5.3.3; schedule and rounds, section 6.2.2);
 * the methods follow the page's typed-array code and are proved against them.
 */
module Sha256 {
  type Byte = bv8
  type Word = bv32

  // ---------------------------------------------------------------- constants

  /** The first 64 primes, in increasing order. */
  function Prime(t: int): nat
    requires 0 <= t < 64
  {
        if t == 0 then 2
    else if t == 1 then 3
    else if t == 2 then 5
    else if t == 3 then 7
    else if t == 4 then 11
    else if t == 5 then 13
    else if t == 6 then 17
    else if t == 7 then 19
    else if t == 8 then 23
    else if t == 9 then 29
    else if t == 10 then 31
    else if t == 11 then 37
    else if t == 12 then 41
    else if t == 13 then 43
    else if t == 14 then 47
    else if t == 15 then 53
    else if t == 16 then 59
    else if t == 17 then 61
    else if t == 18 then 67
    else if t == 19 then 71
    else if t == 20 then 73
    else if t == 21 then 79
    else if t == 22 then 83
    else if t == 23 then 89
    else if t == 24 then 97
    else if t == 25 then 101
    else if t == 26 then 103
    else if t == 27 then 107
    else if t == 28 then 109
    else if t == 29 then 113
    else if t == 30 then 127
    else if t == 31 then 131
    else if t == 32 then 137
    else if t == 33 then 139
    else if t == 34 then 149
    else if t == 35 then 151
    else if t == 36 then 157
    else if t == 37 then 163
    else if t == 38 then 167
    else if t == 39 then 173
    else if t == 40 then 179
    else if t == 41 then 181
    else if t == 42 then 191
    else if t == 43 then 193
    else if t == 44 then 197
    else if t == 45 then 199
    else if t == 46 then 211
    else if t == 47 then 223
    else if t == 48 then 227
    else if t == 49 then 229
    else if t == 50 then 233
    else if t == 51 then 239
    else if t == 52 then 241
    else if t == 53 then 251
    else if t == 54 then 257
    else if t == 55 then 263
    else if t == 56 then 269
    else if t == 57 then 271
    else if t == 58 then 277
    else if t == 59 then 281
    else if t == 60 then 283
    else if t == 61 then 293
    else if t == 62 then 307
    else 311
  }

  /** The round constant RoundConstant(t), as the page lists it. */
  function RoundConstant(t: int): Word
    requires 0 <= t < 64
  {
        if t == 0 then 0x428a2f98
    else if t == 1 then 0x71374491
    else if t == 2 then 0xb5c0fbcf
    else if t == 3 then 0xe9b5dba5
    else if t == 4 then 0x3956c25b
    else if t == 5 then 0x59f111f1
    else if t == 6 then 0x923f82a4
    else if t == 7 then 0xab1c5ed5
    else if t == 8 then 0xd807aa98
    else if t == 9 then 0x12835b01
    else if t == 10 then 0x243185be
    else if t == 11 then 0x550c7dc3
    else if t == 12 then 0x72be5d74
    else if t == 13 then 0x80deb1fe
    else if t == 14 then 0x9bdc06a7
    else if t == 15 then 0xc19bf174
    else if t == 16 then 0xe49b69c1
    else if t == 17 then 0xefbe4786
    else if t == 18 then 0x0fc19dc6
    else if t == 19 then 0x240ca1cc
    else if t == 20 then 0x2de92c6f
    else if t == 21 then 0x4a7484aa
    else if t == 22 then 0x5cb0a9dc
    else if t == 23 then 0x76f988da
    else if t == 24 then 0x983e5152
    else if t == 25 then 0xa831c66d
    else if t == 26 then 0xb00327c8
    else if t == 27 then 0xbf597fc7
    else if t == 28 then 0xc6e00bf3
    else if t == 29 then 0xd5a79147
    else if t == 30 then 0x06ca6351
    else if t == 31 then 0x14292967
    else if t == 32 then 0x27b70a85
    else if t == 33 then 0x2e1b2138
    else if t == 34 then 0x4d2c6dfc
    else if t == 35 then 0x53380d13
    else if t == 36 then 0x650a7354
    else if t == 37 then 0x766a0abb
    else if t == 38 then 0x81c2c92e
    else if t == 39 then 0x92722c85
    else if t == 40 then 0xa2bfe8a1
    else if t == 41 then 0xa81a664b
    else if t == 42 then 0xc24b8b70
    else if t == 43 then 0xc76c51a3
    else if t == 44 then 0xd192e819
    else if t == 45 then 0xd6990624
    else if t == 46 then 0xf40e3585
    else if t == 47 then 0x106aa070
    else if t == 48 then 0x19a4c116
    else if t == 49 then 0x1e376c08
    else if t == 50 then 0x2748774c
    else if t == 51 then 0x34b0bcb5
    else if t == 52 then 0x391c0cb3
    else if t == 53 then 0x4ed8aa4a
    else if t == 54 then 0x5b9cca4f
    else if t == 55 then 0x682e6ff3
    else if t == 56 then 0x748f82ee
    else if t == 57 then 0x78a5636f
    else if t == 58 then 0x84c87814
    else if t == 59 then 0x8cc70208
    else if t == 60 then 0x90befffa
    else if t == 61 then 0xa4506ceb
    else if t == 62 then 0xbef9a3f7
    else 0xc67178f2
  }

  /** The initial hash value H(0)[t], as the page lists it. */
  function InitialHash(t: int): Word
    requires 0 <= t < 8
  {
        if t == 0 then 0x6a09e667
    else if t == 1 then 0xbb67ae85
    else if t == 2 then 0x3c6ef372
    else if t == 3 then 0xa54ff53a
    else if t == 4 then 0x510e527f
    else if t == 5 then 0x9b05688c
    else if t == 6 then 0x1f83d9ab
    else 0x5be0cd19
  }

  /** H(0) as a sequence. */
  function H0(): (h: seq<Word>)
    ensures |h| == 8 && forall t | 0 <= t < 8 :: h[t] == InitialHash(t)
  {
    seq(8, InitialHash)
  }

  function Cube(x: int): int { x * x * x }

  /** The integer part of the cube root of p, searched upwards from n. */
  function IntCbrt(p: nat, n: nat): nat
    decreases p - n
  {
    if Cube(n + 1) > p || n >= p then n else IntCbrt(p, n + 1)
  }

  /** The integer part of the square root of p, searched upwards from n. */
  function IntSqrt(p: nat, n: nat): nat
    decreases p - n
  {
    if (n + 1) * (n + 1) > p || n >= p then n else IntSqrt(p, n + 1)
  }

  /** k is the first 32 bits of the fractional part of the cube root of p. */
  predicate CubeRootBits(p: nat, k: Word)
  {
    var x := IntCbrt(p, 0) * 0x1_0000_0000 + k as int;
    Cube(x) <= p * 0x1_0000_0000_0000_0000_0000_0000 < Cube(x + 1)
  }

  /** h is the first 32 bits of the fractional part of the square root of p. */
  predicate SquareRootBits(p: nat, h: Word)
  {
    var x := IntSqrt(p, 0) * 0x1_0000_0000 + h as int;
    x * x <= p * 0x1_0000_0000_0000_0000 < (x + 1) * (x + 1)
  }

  /** Round constants 0 to 3. */
  lemma CubeRoots0()
    ensures forall t | 0 <= t < 4 :: CubeRootBits(Prime(t), RoundConstant(t))
  {
    forall t | 0 <= t < 4 ensures CubeRootBits(Prime(t), RoundConstant(t)) {
      if t == 0 {
        assert CubeRootBits(2, 0x428a2f98);
      } else if t == 1 {
        assert CubeRootBits(3, 0x71374491);
      } else if t == 2 {
        assert CubeRootBits(5, 0xb5c0fbcf);
      } else {
        assert CubeRootBits(7, 0xe9b5dba5);
      }
    }
  }

  /** Round constants 4 to 7. */
  lemma CubeRoots1()
    ensures forall t | 4 <= t < 8 :: CubeRootBits(Prime(t), RoundConstant(t))
  {
    forall t | 4 <= t < 8 ensures CubeRootBits(Prime(t), RoundConstant(t)) {
      if t == 4 {
        assert CubeRootBits(11, 0x3956c25b);
      } else if t == 5 {
        assert CubeRootBits(13, 0x59f111f1);
      } else if t == 6 {
        assert CubeRootBits(17, 0x923f82a4);
      } else {
        assert CubeRootBits(19, 0xab1c5ed5);
      }
    }
  }

  /** Round constants 8 to 11. */
  lemma CubeRoots2()
    ensures forall t | 8 <= t < 12 :: CubeRootBits(Prime(t), RoundConstant(t))
  {
    forall t | 8 <= t < 12 ensures CubeRootBits(Prime(t), RoundConstant(t)) {
      if t == 8 {
        assert CubeRootBits(23, 0xd807aa98);
      } else if t == 9 {
        assert CubeRootBits(29, 0x12835b01);
      } else if t == 10 {
        assert CubeRootBits(31, 0x243185be);
      } else {
        assert CubeRootBits(37, 0x550c7dc3);
      }
    }
  }

  /** Round constants 12 to 15. */
  lemma CubeRoots3()
    ensures forall t | 12 <= t < 16 :: CubeRootBits(Prime(t), RoundConstant(t))
  {
    forall t | 12 <= t < 16 ensures CubeRootBits(Prime(t), RoundConstant(t)) {
      if t == 12 {
        assert CubeRootBits(41, 0x72be5d74);
      } else if t == 13 {
        assert CubeRootBits(43, 0x80deb1fe);
      } else if t == 14 {
        assert CubeRootBits(47, 0x9bdc06a7);
      } else {
        assert CubeRootBits(53, 0xc19bf174);
      }
    }
  }

  /** Round constants 16 to 19. */
  lemma CubeRoots4()
    ensures forall t | 16 <= t < 20 :: CubeRootBits(Prime(t), RoundConstant(t))
  {
    forall t | 16 <= t < 20 ensures CubeRootBits(Prime(t), RoundConstant(t)) {
      if t == 16 {
        assert CubeRootBits(59, 0xe49b69c1);
      } else if t == 17 {
        assert CubeRootBits(61, 0xefbe4786);
      } else if t == 18 {
        assert CubeRootBits(67, 0x0fc19dc6);
      } else {
        assert CubeRootBits(71, 0x240ca1cc);
      }
    }
  }

  /** Round constants 20 to 23. */
  lemma CubeRoots5()
    ensures forall t | 20 <= t < 24 :: CubeRootBits(Prime(t), RoundConstant(t))
  {
    forall t | 20 <= t < 24 ensures CubeRootBits(Prime(t), RoundConstant(t)) {
      if t == 20 {
        assert CubeRootBits(73, 0x2de92c6f);
      } else if t == 21 {
        assert CubeRootBits(79, 0x4a7484aa);
      } else if t == 22 {
        assert CubeRootBits(83, 0x5cb0a9dc);
      } else {
        assert CubeRootBits(89, 0x76f988da);
      }
    }
  }

  /** Round constants 24 to 27. */
  lemma CubeRoots6()
    ensures forall t | 24 <= t < 28 :: CubeRootBits(Prime(t), RoundConstant(t))
  {
    forall t | 24 <= t < 28 ensures CubeRootBits(Prime(t), RoundConstant(t)) {
      if t == 24 {
        assert CubeRootBits(97, 0x983e5152);
      } else if t == 25 {
        assert CubeRootBits(101, 0xa831c66d);
      } else if t == 26 {
        assert CubeRootBits(103, 0xb00327c8);
      } else {
        assert CubeRootBits(107, 0xbf597fc7);
      }
    }
  }

  /** Round constants 28 to 31. */
  lemma CubeRoots7()
    ensures forall t | 28 <= t < 32 :: CubeRootBits(Prime(t), RoundConstant(t))
  {
    forall t | 28 <= t < 32 ensures CubeRootBits(Prime(t), RoundConstant(t)) {
      if t == 28 {
        assert CubeRootBits(109, 0xc6e00bf3);
      } else if t == 29 {
        assert CubeRootBits(113, 0xd5a79147);
      } else if t == 30 {
        assert CubeRootBits(127, 0x06ca6351);
      } else {
        assert CubeRootBits(131, 0x14292967);
      }
    }
  }

  /** Round constants 32 to 35. */
  lemma CubeRoots8()
    ensures forall t | 32 <= t < 36 :: CubeRootBits(Prime(t), RoundConstant(t))
  {
    forall t | 32 <= t < 36 ensures CubeRootBits(Prime(t), RoundConstant(t)) {
      if t == 32 {
        assert CubeRootBits(137, 0x27b70a85);
      } else if t == 33 {
        assert CubeRootBits(139, 0x2e1b2138);
      } else if t == 34 {
        assert CubeRootBits(149, 0x4d2c6dfc);
      } else {
        assert CubeRootBits(151, 0x53380d13);
      }
    }
  }

  /** Round constants 36 to 39. */
  lemma CubeRoots9()
    ensures forall t | 36 <= t < 40 :: CubeRootBits(Prime(t), RoundConstant(t))
  {
    forall t | 36 <= t < 40 ensures CubeRootBits(Prime(t), RoundConstant(t)) {
      if t == 36 {
        assert CubeRootBits(157, 0x650a7354);
      } else if t == 37 {
        assert CubeRootBits(163, 0x766a0abb);
      } else if t == 38 {
        assert CubeRootBits(167, 0x81c2c92e);
      } else {
        assert CubeRootBits(173, 0x92722c85);
      }
    }
  }

  /** Round constants 40 to 43. */
  lemma CubeRoots10()
    ensures forall t | 40 <= t < 44 :: CubeRootBits(Prime(t), RoundConstant(t))
  {
    forall t | 40 <= t < 44 ensures CubeRootBits(Prime(t), RoundConstant(t)) {
      if t == 40 {
        assert CubeRootBits(179, 0xa2bfe8a1);
      } else if t == 41 {
        assert CubeRootBits(181, 0xa81a664b);
      } else if t == 42 {
        assert CubeRootBits(191, 0xc24b8b70);
      } else {
        assert CubeRootBits(193, 0xc76c51a3);
      }
    }
  }

  /** Round constants 44 to 47. */
  lemma CubeRoots11()
    ensures forall t | 44 <= t < 48 :: CubeRootBits(Prime(t), RoundConstant(t))
  {
    forall t | 44 <= t < 48 ensures CubeRootBits(Prime(t), RoundConstant(t)) {
      if t == 44 {
        assert CubeRootBits(197, 0xd192e819);
      } else if t == 45 {
        assert CubeRootBits(199, 0xd6990624);
      } else if t == 46 {
        assert CubeRootBits(211, 0xf40e3585);
      } else {
        assert CubeRootBits(223, 0x106aa070);
      }
    }
  }

  /** Round constants 48 to 51. */
  lemma CubeRoots12()
    ensures forall t | 48 <= t < 52 :: CubeRootBits(Prime(t), RoundConstant(t))
  {
    forall t | 48 <= t < 52 ensures CubeRootBits(Prime(t), RoundConstant(t)) {
      if t == 48 {
        assert CubeRootBits(227, 0x19a4c116);
      } else if t == 49 {
        assert CubeRootBits(229, 0x1e376c08);
      } else if t == 50 {
        assert CubeRootBits(233, 0x2748774c);
      } else {
        assert CubeRootBits(239, 0x34b0bcb5);
      }
    }
  }

  /** Round constants 52 to 55. */
  lemma CubeRoots13()
    ensures forall t | 52 <= t < 56 :: CubeRootBits(Prime(t), RoundConstant(t))
  {
    forall t | 52 <= t < 56 ensures CubeRootBits(Prime(t), RoundConstant(t)) {
      if t == 52 {
        assert CubeRootBits(241, 0x391c0cb3);
      } else if t == 53 {
        assert CubeRootBits(251, 0x4ed8aa4a);
      } else if t == 54 {
        assert CubeRootBits(257, 0x5b9cca4f);
      } else {
        assert CubeRootBits(263, 0x682e6ff3);
      }
    }
  }

  /** Round constants 56 to 59. */
  lemma CubeRoots14()
    ensures forall t | 56 <= t < 60 :: CubeRootBits(Prime(t), RoundConstant(t))
  {
    forall t | 56 <= t < 60 ensures CubeRootBits(Prime(t), RoundConstant(t)) {
      if t == 56 {
        assert CubeRootBits(269, 0x748f82ee);
      } else if t == 57 {
        assert CubeRootBits(271, 0x78a5636f);
      } else if t == 58 {
        assert CubeRootBits(277, 0x84c87814);
      } else {
        assert CubeRootBits(281, 0x8cc70208);
      }
    }
  }

  /** Round constants 60 to 63. */
  lemma CubeRoots15()
    ensures forall t | 60 <= t < 64 :: CubeRootBits(Prime(t), RoundConstant(t))
  {
    forall t | 60 <= t < 64 ensures CubeRootBits(Prime(t), RoundConstant(t)) {
      if t == 60 {
        assert CubeRootBits(283, 0x90befffa);
      } else if t == 61 {
        assert CubeRootBits(293, 0xa4506ceb);
      } else if t == 62 {
        assert CubeRootBits(307, 0xbef9a3f7);
      } else {
        assert CubeRootBits(311, 0xc67178f2);
      }
    }
  }

  /** The constants are the ones FIPS 180-4 derives from the cube and square roots of the first primes. */
  lemma ConstantsFromRoots()
    ensures forall t | 0 <= t < 64 :: CubeRootBits(Prime(t), RoundConstant(t))
    ensures forall t | 0 <= t < 8 :: SquareRootBits(Prime(t), InitialHash(t))
  {
    CubeRoots0();
    CubeRoots1();
    CubeRoots2();
    CubeRoots3();
    CubeRoots4();
    CubeRoots5();
    CubeRoots6();
    CubeRoots7();
    CubeRoots8();
    CubeRoots9();
    CubeRoots10();
    CubeRoots11();
    CubeRoots12();
    CubeRoots13();
    CubeRoots14();
    CubeRoots15();
    forall t | 0 <= t < 8 ensures SquareRootBits(Prime(t), InitialHash(t)) {
      if t == 0 {
        assert SquareRootBits(2, 0x6a09e667);
      } else if t == 1 {
        assert SquareRootBits(3, 0xbb67ae85);
      } else if t == 2 {
        assert SquareRootBits(5, 0x3c6ef372);
      } else if t == 3 {
        assert SquareRootBits(7, 0xa54ff53a);
      } else if t == 4 {
        assert SquareRootBits(11, 0x510e527f);
      } else if t == 5 {
        assert SquareRootBits(13, 0x9b05688c);
      } else if t == 6 {
        assert SquareRootBits(17, 0x1f83d9ab);
      } else {
        assert SquareRootBits(19, 0x5be0cd19);
      }
    }
  }

  // ------------------------------------------------- functions of section 4.1.2

  /** ROTR of section 3.2: (x >> n) | (x << 32 - n), which is also the page's rotr. */
  function Rotr(x: Word, n: Word): Word
    requires 0 < n < 32
  {
    (x >> n) | (x << (32 - n))
  }

  /** Addition modulo 2^32, the page's (x + y) >>> 0. */
  function Add(x: Word, y: Word): Word { x + y }

  function Ch(x: Word, y: Word, z: Word): Word { (x & y) ^ (!x & z) }
  function Maj(x: Word, y: Word, z: Word): Word { (x & y) ^ (x & z) ^ (y & z) }
  function BigSigma0(x: Word): Word { Rotr(x, 2) ^ Rotr(x, 13) ^ Rotr(x, 22) }
  function BigSigma1(x: Word): Word { Rotr(x, 6) ^ Rotr(x, 11) ^ Rotr(x, 25) }
  function SmallSigma0(x: Word): Word { Rotr(x, 7) ^ Rotr(x, 18) ^ (x >> 3) }
  function SmallSigma1(x: Word): Word { Rotr(x, 17) ^ Rotr(x, 19) ^ (x >> 10) }

  // ------------------------------------------------------------------ padding

  function Zeros(n: nat): (r: seq<Byte>)
    ensures |r| == n && forall i | 0 <= i < n :: r[i] == 0
  {
    seq(n, _ => 0)
  }

  /** The low `width` bytes of n, most significant first. */
  function BigEndian(n: nat, width: nat): (r: seq<Byte>)
    ensures |r| == width
  {
    if width == 0 then [] else BigEndian(n / 256, width - 1) + [(n % 256) as Byte]
  }

  /** The padded length the page allocates, ((l + 9 + 63) >> 6) << 6: the least multiple of 64 that holds l + 9 bytes. */
  function PaddedLength(l: nat): (r: nat)
    ensures r % 64 == 0 && l + 9 <= r && r - 64 < l + 9
  {
    (l + 72) / 64 * 64
  }

  /** The FIPS 180-4 zero-fill k makes l + 1 + k + 8 the page's padded length. */
  lemma FillLength(l: nat)
    ensures l + 1 + (55 - l) % 64 + 8 == PaddedLength(l)
  {
  }

  /** Section 5.1.1: the message, a 1 bit, k zero bits and the 64-bit length in bits. */
  function FipsPad(m: seq<Byte>): (r: seq<Byte>)
    ensures |r| % 64 == 0 && |r| == PaddedLength(|m|)
  {
    FillLength(|m|);
    m + [0x80] + Zeros((55 - |m|) % 64) + BigEndian(8 * |m|, 8)
  }

  /** The page's padding: 0x80 after the message, zeros, and only the low 32 bits of the bit length in the last four bytes. */
  function JsPad(m: seq<Byte>): (r: seq<Byte>)
    ensures |r| == PaddedLength(|m|)
    ensures r[..|m|] == m && r[|m|] == 0x80
    ensures forall i | |m| < i < |r| - 4 :: r[i] == 0
    ensures r[|r| - 4..] == BigEndian(8 * |m| % 0x1_0000_0000, 4)
  {
    m + [0x80] + Zeros(PaddedLength(|m|) - |m| - 5) + BigEndian(8 * |m| % 0x1_0000_0000, 4)
  }

  /** One step of BigEndian: the lowest byte comes last. */
  lemma BigEndianStep(n: nat, width: nat)
    ensures BigEndian(n, width + 1) == BigEndian(n / 256, width) + [(n % 256) as Byte]
  {
  }

  lemma AppendFour(s: seq<Byte>, b3: Byte, b2: Byte, b1: Byte, b0: Byte)
    ensures s + [b3] + [b2] + [b1] + [b0] == s + [b3, b2, b1, b0]
  {
  }

  /** The last four of `width + 4` bytes are n's four low bytes. */
  lemma BigEndianLow(n: nat, width: nat)
    ensures BigEndian(n, width + 4)
         == BigEndian(n / 256 / 256 / 256 / 256, width)
            + [(n / 256 / 256 / 256 % 256) as Byte, (n / 256 / 256 % 256) as Byte, (n / 256 % 256) as Byte, (n % 256) as Byte]
  {
    var n1, n2, n3 := n / 256, n / 256 / 256, n / 256 / 256 / 256;
    var b0, b1, b2, b3 := (n % 256) as Byte, (n1 % 256) as Byte, (n2 % 256) as Byte, (n3 % 256) as Byte;
    var high := BigEndian(n3 / 256, width);
    BigEndianStep(n, width + 3);
    BigEndianStep(n1, width + 2);
    BigEndianStep(n2, width + 1);
    BigEndianStep(n3, width);
    calc {
      BigEndian(n, width + 4);
      BigEndian(n1, width + 3) + [b0];
      BigEndian(n2, width + 2) + [b1] + [b0];
      BigEndian(n3, width + 1) + [b2] + [b1] + [b0];
      high + [b3] + [b2] + [b1] + [b0];
      { AppendFour(high, b3, b2, b1, b0); }
      high + [b3, b2, b1, b0];
    }
  }

  /** Dividing by 256 twice, or three times, is one shift by 16 or 24 bits. */
  lemma DivideBytes(n: nat)
    ensures n / 256 / 256 == n / 0x1_0000 && n / 256 / 256 / 256 == n / 0x100_0000
  {
    var q1, q2 := n / 256, n / 256 / 256;
    assert n == 0x1_0000 * q2 + 256 * (q1 % 256) + n % 256;
    assert n == 0x100_0000 * (q2 / 256) + 0x1_0000 * (q2 % 256) + 256 * (q1 % 256) + n % 256;
  }

  /** The four bytes the page writes are n's four low bytes, as BigEndian lays them out. */
  lemma BigEndianFour(n: nat)
    ensures BigEndian(n, 4) == [(n / 0x100_0000 % 256) as Byte, (n / 0x1_0000 % 256) as Byte, (n / 0x100 % 256) as Byte, (n % 256) as Byte]
  {
    BigEndianLow(n, 0);
    DivideBytes(n);
  }

  /** Eight bytes of a number below 2^32 are four zero bytes and its four low bytes. */
  lemma BigEndianHigh(n: nat)
    requires n < 0x1_0000_0000
    ensures BigEndian(n, 8) == Zeros(4) + BigEndian(n, 4)
  {
    assert n / 256 / 256 / 256 / 256 == 0;
    BigEndianLow(n, 0);
    BigEndianLow(n, 4);
    BigEndianLow(0, 0);
  }

  /** Below 2^29 bytes the page's padding is exactly FIPS 180-4's: the bit length then fits in the 32 bits it writes. */
  lemma PadMatchesFips(m: seq<Byte>)
    requires |m| < 0x2000_0000
    ensures JsPad(m) == FipsPad(m)
  {
    var l := |m|;
    assert PaddedLength(l) - l - 5 == (55 - l) % 64 + 4;
    assert 8 * l % 0x1_0000_0000 == 8 * l;
    BigEndianHigh(8 * l);
    assert Zeros(PaddedLength(l) - l - 5) == Zeros((55 - l) % 64) + Zeros(4);
  }

  /** At 2^29 bytes the length the page writes has lost its high bit: its padding then differs from FIPS 180-4's. */
  lemma PadDiffersAtLimit(m: seq<Byte>)
    requires |m| == 0x2000_0000
    ensures JsPad(m) != FipsPad(m)
  {
    var r := FipsPad(m);
    var n := |r|;
    var bits := 8 * |m|;
    assert BigEndian(bits, 8)[3] == 1 by {
      assert bits / 256 / 256 / 256 / 256 == 1;
      BigEndianLow(bits, 4);
      BigEndianLow(bits / 256 / 256 / 256 / 256, 0);
    }
    var front := m + [0x80] + Zeros((55 - |m|) % 64);
    assert r == front + BigEndian(bits, 8);
    assert |front| == n - 8;
    assert r[n - 5] == BigEndian(bits, 8)[3];
    assert JsPad(m)[n - 5] == 0;
  }

  // ------------------------------------------------ schedule, rounds, hashing

  /** The big-endian word at byte offset j. */
  function WordAt(p: seq<Byte>, j: nat): Word
    requires j + 4 <= |p|
  {
    (p[j] as Word << 24) | (p[j + 1] as Word << 16) | (p[j + 2] as Word << 8) | p[j + 3] as Word
  }

  /**
   * Section 6.2.2 step 1: word t of the schedule of the block at byte offset i
   * (the four terms summed modulo 2^32 in the page's order).
   */
  function ScheduleWord(p: seq<Byte>, i: nat, t: nat): Word
    requires i + 64 <= |p| && t < 64
    decreases t
  {
    if t < 16 then WordAt(p, i + 4 * t)
    else Add(Add(Add(ScheduleWord(p, i, t - 16), SmallSigma0(ScheduleWord(p, i, t - 15))),
                 ScheduleWord(p, i, t - 7)), SmallSigma1(ScheduleWord(p, i, t - 2)))
  }

  function Schedule(p: seq<Byte>, i: nat): (w: seq<Word>)
    requires i + 64 <= |p|
    ensures |w| == 64
  {
    seq(64, t requires 0 <= t < 64 => ScheduleWord(p, i, t))
  }

  /** The eight working variables a..h of section 6.2.2. */
  datatype Vars = Vars(a: Word, b: Word, c: Word, d: Word, e: Word, f: Word, g: Word, h: Word)

  /** Section 6.2.2 step 3: one round on the working variables. */
  function Round(v: Vars, k: Word, w: Word): Vars
  {
    var t1 := Add(Add(Add(Add(v.h, BigSigma1(v.e)), Ch(v.e, v.f, v.g)), k), w);
    var t2 := Add(BigSigma0(v.a), Maj(v.a, v.b, v.c));
    Vars(Add(t1, t2), v.a, v.b, v.c, Add(v.d, t1), v.e, v.f, v.g)
  }

  /** The working variables after the first t rounds. */
  function Rounds(v: Vars, w: seq<Word>, t: nat): Vars
    requires |w| == 64 && t <= 64
  {
    if t == 0 then v else Round(Rounds(v, w, t - 1), RoundConstant(t - 1), w[t - 1])
  }

  /** Section 6.2.2 step 4: each word of the hash value plus the matching working variable. */
  function AddWords(h: seq<Word>, v: seq<Word>): (r: seq<Word>)
    requires |h| == 8 && |v| == 8
    ensures |r| == 8
  {
    seq(8, j requires 0 <= j < 8 => Add(h[j], v[j]))
  }

  /** Section 6.2.2 steps 2-4: the next hash value. */
  function Compress(h: seq<Word>, w: seq<Word>): (r: seq<Word>)
    requires |h| == 8 && |w| == 64
    ensures |r| == 8
  {
    var v := Rounds(Vars(h[0], h[1], h[2], h[3], h[4], h[5], h[6], h[7]), w, |w|);
    AddWords(h, [v.a, v.b, v.c, v.d, v.e, v.f, v.g, v.h])
  }

  /** The hash value after the first n blocks of a padded message. */
  function HashBlocks(p: seq<Byte>, n: nat): (r: seq<Word>)
    requires 64 * n <= |p|
    ensures |r| == 8
  {
    if n == 0 then H0() else Compress(HashBlocks(p, n - 1), Schedule(p, 64 * (n - 1)))
  }

  /** A word's four bytes, most significant first. */
  function WordBytes(w: Word): (r: seq<Byte>)
    ensures |r| == 4
  {
    [(w >> 24) as Byte, ((w >> 16) & 0xff) as Byte, ((w >> 8) & 0xff) as Byte, (w & 0xff) as Byte]
  }

  /** The hash value as bytes, each word most significant byte first. */
  function Serialize(h: seq<Word>): (r: seq<Byte>)
    ensures |r| == 4 * |h|
  {
    if h == [] then [] else Serialize(h[..|h| - 1]) + WordBytes(h[|h| - 1])
  }

  /** SHA-256 of a message, by FIPS 180-4. */
  function Digest(m: seq<Byte>): (r: seq<Byte>)
    ensures |r| == 32
  {
    var p := FipsPad(m);
    Serialize(HashBlocks(p, |p| / 64))
  }

  // ---------------------------------------------------------------------- hex

  /** The lowercase hex digit of a nibble. */
  function HexDigit(n: Byte): char
    requires n < 16
  {
    if n == 0 then '0'
    else if n == 1 then '1'
    else if n == 2 then '2'
    else if n == 3 then '3'
    else if n == 4 then '4'
    else if n == 5 then '5'
    else if n == 6 then '6'
    else if n == 7 then '7'
    else if n == 8 then '8'
    else if n == 9 then '9'
    else if n == 10 then 'a'
    else if n == 11 then 'b'
    else if n == 12 then 'c'
    else if n == 13 then 'd'
    else if n == 14 then 'e'
    else 'f'
  }

  predicate IsHexDigit(c: char)
  {
    '0' <= c <= '9' || 'a' <= c <= 'f'
  }

  /** The nibble a lowercase hex digit stands for. */
  function DigitValue(c: char): (n: Byte)
    requires IsHexDigit(c)
    ensures n < 16
  {
    if c == '0' then 0
    else if c == '1' then 1
    else if c == '2' then 2
    else if c == '3' then 3
    else if c == '4' then 4
    else if c == '5' then 5
    else if c == '6' then 6
    else if c == '7' then 7
    else if c == '8' then 8
    else if c == '9' then 9
    else if c == 'a' then 10
    else if c == 'b' then 11
    else if c == 'c' then 12
    else if c == 'd' then 13
    else if c == 'e' then 14
    else 15
  }

  /** Every nibble has a digit, and the digit reads back as that nibble. */
  lemma DigitRoundTrip(n: Byte)
    requires n < 16
    ensures IsHexDigit(HexDigit(n)) && DigitValue(HexDigit(n)) == n
  {
  }

  /** toString(16).padStart(2, '0') of every byte, joined: high nibble first. */
  function Hex(bs: seq<Byte>): (s: string)
    ensures |s| == 2 * |bs|
    ensures forall i | 0 <= i < |s| :: IsHexDigit(s[i])
  {
    if bs == [] then ""
    else
      DigitRoundTrip(bs[0] >> 4);
      DigitRoundTrip(bs[0] & 0xf);
      [HexDigit(bs[0] >> 4), HexDigit(bs[0] & 0xf)] + Hex(bs[1..])
  }

  /** The bytes a lowercase hex string spells. */
  function Unhex(s: string): seq<Byte>
    requires |s| % 2 == 0 && forall i | 0 <= i < |s| :: IsHexDigit(s[i])
  {
    if s == "" then [] else [(DigitValue(s[0]) << 4) | DigitValue(s[1])] + Unhex(s[2..])
  }

  /** The hex rendering loses nothing: two digits per byte, read back to the same bytes. */
  lemma {:induction false} HexRoundTrip(bs: seq<Byte>)
    ensures Unhex(Hex(bs)) == bs
  {
    if bs != [] {
      var s := Hex(bs);
      var b := bs[0];
      assert s[2..] == Hex(bs[1..]);
      HexRoundTrip(bs[1..]);
      DigitRoundTrip(b >> 4);
      DigitRoundTrip(b & 0xf);
      assert ((b >> 4) << 4) | (b & 0xf) == b;
    }
  }

  /** SHA-256 of a message as the page renders it: 64 lowercase hex digits. */
  function HexDigest(m: seq<Byte>): (s: string)
    ensures |s| == 64 && forall i | 0 <= i < 64 :: IsHexDigit(s[i])
  {
    Hex(Digest(m))
  }

  /** What the page's code computes: the FIPS 180-4 steps over the page's own padding, in hex. */
  function PageDigest(m: seq<Byte>): (s: string)
    ensures |s| == 64 && forall i | 0 <= i < 64 :: IsHexDigit(s[i])
  {
    var p := JsPad(m);
    Hex(Serialize(HashBlocks(p, |p| / 64)))
  }

  /** Below 2^29 bytes the page's digest is the FIPS 180-4 digest. */
  lemma PageDigestIsFips(m: seq<Byte>)
    requires |m| < 0x2000_0000
    ensures PageDigest(m) == HexDigest(m)
  {
    PadMatchesFips(m);
  }

  /** A buffer laid out as the page's padding is JsPad of the message. */
  lemma JsPadParts(m: seq<Byte>, s: seq<Byte>)
    requires |s| == PaddedLength(|m|)
    requires forall j | 0 <= j < |m| :: s[j] == m[j]
    requires s[|m|] == 0x80
    requires forall j | |m| < j < |s| - 4 :: s[j] == 0
    requires s[|s| - 4..] == BigEndian(8 * |m| % 0x1_0000_0000, 4)
    ensures s == JsPad(m)
  {
    var expected := JsPad(m);
    forall j | 0 <= j < |s| ensures s[j] == expected[j] {
      if j < |m| {
        assert expected[..|m|][j] == m[j];
      } else if |s| - 4 <= j {
        assert expected[|s| - 4..][j - (|s| - 4)] == expected[j];
        assert s[|s| - 4..][j - (|s| - 4)] == s[j];
      }
    }
  }

  // ------------------------------------------------------------ the page's code

  /** Allocates the padded buffer, copies the message in, writes 0x80 and the low 32 bits of the bit length. */
  method PadMessage(bytes: seq<Byte>) returns (withPad: array<Byte>)
    ensures fresh(withPad) && withPad[..] == JsPad(bytes)
  {
    var l := |bytes|;
    withPad := new Byte[PaddedLength(l)](j => if 0 <= j < l then bytes[j] else 0);
    withPad[l] := 0x80;
    var bitLen := 8 * l % 0x1_0000_0000;
    var n := withPad.Length;
    withPad[n - 4] := (bitLen / 0x100_0000 % 256) as Byte;
    withPad[n - 3] := (bitLen / 0x1_0000 % 256) as Byte;
    withPad[n - 2] := (bitLen / 0x100 % 256) as Byte;
    withPad[n - 1] := (bitLen % 256) as Byte;
    BigEndianFour(bitLen);
    ghost var s := withPad[..];
    assert s[n - 4..] == [s[n - 4], s[n - 3], s[n - 2], s[n - 1]];
    JsPadParts(bytes, s);
  }

  /** The first 16 words of W: the block's bytes read four at a time, big-endian. */
  method LoadBlock(withPad: seq<Byte>, i: nat, w: array<Word>)
    requires i + 64 <= |withPad| && w.Length == 64
    modifies w
    ensures forall u | 0 <= u < 16 :: w[u] == ScheduleWord(withPad, i, u)
  {
    var t := 0;
    while t < 16
      invariant 0 <= t <= 16
      invariant forall u | 0 <= u < t :: w[u] == ScheduleWord(withPad, i, u)
    {
      var j := i + t * 4;
      w[t] := (withPad[j] as Word << 24) | (withPad[j + 1] as Word << 16) | (withPad[j + 2] as Word << 8) | withPad[j + 3] as Word;
      t := t + 1;
    }
  }

  /** Words 16 to 63 of W, each from four earlier words. */
  method ExtendSchedule(withPad: seq<Byte>, i: nat, w: array<Word>)
    requires i + 64 <= |withPad| && w.Length == 64
    requires forall u | 0 <= u < 16 :: w[u] == ScheduleWord(withPad, i, u)
    modifies w
    ensures forall u | 0 <= u < 64 :: w[u] == ScheduleWord(withPad, i, u)
  {
    var t := 16;
    while t < 64
      invariant 16 <= t <= 64
      invariant forall u | 0 <= u < t :: w[u] == ScheduleWord(withPad, i, u)
    {
      var s0 := SmallSigma0(w[t - 15]);
      var s1 := SmallSigma1(w[t - 2]);
      w[t] := Add(Add(Add(w[t - 16], s0), w[t - 7]), s1);
      t := t + 1;
    }
  }

  /** Fills W with the schedule of the block at byte offset i. */
  method ScheduleBlock(withPad: seq<Byte>, i: nat, w: array<Word>)
    requires i + 64 <= |withPad| && w.Length == 64
    modifies w
    ensures w[..] == Schedule(withPad, i)
  {
    LoadBlock(withPad, i, w);
    ExtendSchedule(withPad, i, w);
    assert w[..] == Schedule(withPad, i);
  }

  /** Two eight-word sequences that agree word by word are equal. */
  lemma EightWords(x: seq<Word>, y: seq<Word>)
    requires |x| == 8 && |y| == 8
    requires x[0] == y[0] && x[1] == y[1] && x[2] == y[2] && x[3] == y[3]
    requires x[4] == y[4] && x[5] == y[5] && x[6] == y[6] && x[7] == y[7]
    ensures x == y
  {
    assert forall j | 0 <= j < 8 :: x[j] == y[j];
  }

  /** Runs the 64 rounds of one block and adds the working variables into H. */
  method CompressBlock(h: array<Word>, w: array<Word>)
    requires h.Length == 8 && w.Length == 64 && h != w
    modifies h
    ensures h[..] == Compress(old(h[..]), w[..])
  {
    ghost var hs := h[..];
    ghost var ws := w[..];
    ghost var v0 := Vars(hs[0], hs[1], hs[2], hs[3], hs[4], hs[5], hs[6], hs[7]);
    var a, b, c, d, e, f, g, hh := h[0], h[1], h[2], h[3], h[4], h[5], h[6], h[7];
    var t := 0;
    while t < 64
      invariant 0 <= t <= 64 && unchanged(h)
      invariant Vars(a, b, c, d, e, f, g, hh) == Rounds(v0, w[..], t)
    {
      var temp1 := Add(Add(Add(Add(hh, BigSigma1(e)), Ch(e, f, g)), RoundConstant(t)), w[t]);
      var temp2 := Add(BigSigma0(a), Maj(a, b, c));
      hh, g, f, e, d, c, b, a := g, f, e, Add(d, temp1), c, b, a, Add(temp1, temp2);
      t := t + 1;
    }
    var v := [a, b, c, d, e, f, g, hh];
    forall j | 0 <= j < 8 {
      h[j] := Add(h[j], v[j]);
    }
    assert w[..] == ws;
  }

  /** Hashing one more block of a padded message. */
  lemma HashBlocksNext(p: seq<Byte>, k: nat)
    requires 64 * (k + 1) <= |p|
    ensures HashBlocks(p, k + 1) == Compress(HashBlocks(p, k), Schedule(p, 64 * k))
  {
  }

  /** Bytes that hold each word's four bytes in turn are the serialized hash value. */
  lemma {:induction false} SerializeBytes(h: seq<Word>, out: seq<Byte>)
    requires |out| == 4 * |h|
    requires forall u | 0 <= u < |h| ::
               out[4 * u] == WordBytes(h[u])[0] && out[4 * u + 1] == WordBytes(h[u])[1]
               && out[4 * u + 2] == WordBytes(h[u])[2] && out[4 * u + 3] == WordBytes(h[u])[3]
    ensures out == Serialize(h)
  {
    if h != [] {
      var n := |h| - 1;
      SerializeBytes(h[..n], out[..4 * n]);
      assert out[4 * n..] == WordBytes(h[n]);
      assert out == out[..4 * n] + out[4 * n..];
    }
  }

  /**
   * One block of the page's main loop, the k-th: its message schedule, then
   * its 64 rounds, which take the hash value of the first k blocks to that of
   * the first k + 1.
   */
  method HashBlock(withPad: seq<Byte>, i: nat, h: array<Word>, w: array<Word>, ghost k: nat)
    requires i == 64 * k && i + 64 <= |withPad| && h.Length == 8 && w.Length == 64
    requires h != w && h[..] == HashBlocks(withPad, k)
    modifies h, w
    ensures h[..] == HashBlocks(withPad, k + 1)
  {
    ScheduleBlock(withPad, i, w);
    CompressBlock(h, w);
    HashBlocksNext(withPad, k);
  }

  /** Runs every 64-byte block of the padded message through the schedule and the rounds. */
  method HashPadded(withPad: seq<Byte>) returns (h: array<Word>)
    requires |withPad| % 64 == 0
    ensures fresh(h) && h[..] == HashBlocks(withPad, |withPad| / 64)
  {
    h := new Word[8](InitialHash);
    var w := new Word[64];
    EightWords(h[..], H0());
    for k := 0 to |withPad| / 64
      invariant fresh(h) && fresh(w) && h[..] == HashBlocks(withPad, k)
    {
      HashBlock(withPad, 64 * k, h, w, k);
    }
  }

  /** Writes the hash value into a fresh 32-byte buffer, each word most significant byte first. */
  method DigestBytes(h: array<Word>) returns (out: array<Byte>)
    requires h.Length == 8
    ensures fresh(out) && out[..] == Serialize(h[..])
  {
    out := new Byte[32];
    var i := 0;
    while i < 8
      invariant 0 <= i <= 8
      invariant forall u | 0 <= u < i ::
                  out[4 * u] == WordBytes(h[u])[0] && out[4 * u + 1] == WordBytes(h[u])[1]
                  && out[4 * u + 2] == WordBytes(h[u])[2] && out[4 * u + 3] == WordBytes(h[u])[3]
    {
      var bytes := WordBytes(h[i]);
      out[i * 4] := bytes[0];
      out[i * 4 + 1] := bytes[1];
      out[i * 4 + 2] := bytes[2];
      out[i * 4 + 3] := bytes[3];
      i := i + 1;
    }
    SerializeBytes(h[..], out[..]);
  }

  /**
   * sha256HexJS on the message's UTF-8 bytes: the page's code computes the
   * FIPS 180-4 digest of every message below 2^29 bytes.
   */
  method Sha256HexJs(bytes: seq<Byte>) returns (hex: string)
    ensures hex == PageDigest(bytes)
    ensures |bytes| < 0x2000_0000 ==> hex == HexDigest(bytes)
  {
    var withPad := PadMessage(bytes);
    var h := HashPadded(withPad[..]);
    var out := DigestBytes(h);
    hex := Hex(out[..]);
    if |bytes| < 0x2000_0000 {
      PageDigestIsFips(bytes);
    }
  }
}
