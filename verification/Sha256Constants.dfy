/** Where the constants of SHA-256 come from: section 4.2.2 of FIPS 180-4 takes the first 32 bits
    of the fractions of the cube roots of the first 64 primes, section 5.3.3 those of the square
    roots of the first eight. */
module Sha256Constants {
  import opened Sha256Spec

  // The first 64 primes, eight to a row.

  const P0: seq<nat> := [2, 3, 5, 7, 11, 13, 17, 19]
  const P1: seq<nat> := [23, 29, 31, 37, 41, 43, 47, 53]
  const P2: seq<nat> := [59, 61, 67, 71, 73, 79, 83, 89]
  const P3: seq<nat> := [97, 101, 103, 107, 109, 113, 127, 131]
  const P4: seq<nat> := [137, 139, 149, 151, 157, 163, 167, 173]
  const P5: seq<nat> := [179, 181, 191, 193, 197, 199, 211, 223]
  const P6: seq<nat> := [227, 229, 233, 239, 241, 251, 257, 263]
  const P7: seq<nat> := [269, 271, 277, 281, 283, 293, 307, 311]

  const PRIMES: seq<nat> := P0 + P1 + P2 + P3 + P4 + P5 + P6 + P7

  /** With c before it, k is the first 32 bits of the fraction of p's cube root. */
  predicate CubeRootBits(p: nat, k: nat, c: nat) {
    var v := 0x1_0000_0000 * c + k;
    v * v * v <= p * 0x1_0000_0000_0000_0000_0000_0000 < (v + 1) * (v + 1) * (v + 1)
  }

  predicate SquareRootBits(p: nat, k: nat, c: nat) {
    var v := 0x1_0000_0000 * c + k;
    v * v <= p * 0x1_0000_0000_0000_0000 < (v + 1) * (v + 1)
  }

  ghost predicate FromCubeRoot(p: nat, k: nat) {
    k < 0x1_0000_0000 && exists c :: CubeRootBits(p, k, c)
  }

  ghost predicate FromSquareRoot(p: nat, k: nat) {
    k < 0x1_0000_0000 && exists c :: SquareRootBits(p, k, c)
  }

  lemma CubeRoot(p: nat, k: nat, c: nat)
    requires k < 0x1_0000_0000 && CubeRootBits(p, k, c)
    ensures FromCubeRoot(p, k)
  {
  }

  lemma SquareRoot(p: nat, k: nat, c: nat)
    requires k < 0x1_0000_0000 && SquareRootBits(p, k, c)
    ensures FromSquareRoot(p, k)
  {
  }

  ghost predicate Row(primes: seq<nat>, words: seq<Word>) {
    |primes| == |words| == 8 && forall i :: 0 <= i < 8 ==> FromCubeRoot(primes[i], words[i] as nat)
  }

  lemma Row0()
    ensures Row(P0, K0)
  {
    hide FromCubeRoot;
    CubeRoot(2, 0x428a2f98, 1);
    CubeRoot(3, 0x71374491, 1);
    CubeRoot(5, 0xb5c0fbcf, 1);
    CubeRoot(7, 0xe9b5dba5, 1);
    CubeRoot(11, 0x3956c25b, 2);
    CubeRoot(13, 0x59f111f1, 2);
    CubeRoot(17, 0x923f82a4, 2);
    CubeRoot(19, 0xab1c5ed5, 2);
  }

  lemma Row1()
    ensures Row(P1, K1)
  {
    hide FromCubeRoot;
    CubeRoot(23, 0xd807aa98, 2);
    CubeRoot(29, 0x12835b01, 3);
    CubeRoot(31, 0x243185be, 3);
    CubeRoot(37, 0x550c7dc3, 3);
    CubeRoot(41, 0x72be5d74, 3);
    CubeRoot(43, 0x80deb1fe, 3);
    CubeRoot(47, 0x9bdc06a7, 3);
    CubeRoot(53, 0xc19bf174, 3);
  }

  lemma Row2()
    ensures Row(P2, K2)
  {
    hide FromCubeRoot;
    CubeRoot(59, 0xe49b69c1, 3);
    CubeRoot(61, 0xefbe4786, 3);
    CubeRoot(67, 0x0fc19dc6, 4);
    CubeRoot(71, 0x240ca1cc, 4);
    CubeRoot(73, 0x2de92c6f, 4);
    CubeRoot(79, 0x4a7484aa, 4);
    CubeRoot(83, 0x5cb0a9dc, 4);
    CubeRoot(89, 0x76f988da, 4);
  }

  lemma Row3()
    ensures Row(P3, K3)
  {
    hide FromCubeRoot;
    CubeRoot(97, 0x983e5152, 4);
    CubeRoot(101, 0xa831c66d, 4);
    CubeRoot(103, 0xb00327c8, 4);
    CubeRoot(107, 0xbf597fc7, 4);
    CubeRoot(109, 0xc6e00bf3, 4);
    CubeRoot(113, 0xd5a79147, 4);
    CubeRoot(127, 0x06ca6351, 5);
    CubeRoot(131, 0x14292967, 5);
  }

  lemma Row4()
    ensures Row(P4, K4)
  {
    hide FromCubeRoot;
    CubeRoot(137, 0x27b70a85, 5);
    CubeRoot(139, 0x2e1b2138, 5);
    CubeRoot(149, 0x4d2c6dfc, 5);
    CubeRoot(151, 0x53380d13, 5);
    CubeRoot(157, 0x650a7354, 5);
    CubeRoot(163, 0x766a0abb, 5);
    CubeRoot(167, 0x81c2c92e, 5);
    CubeRoot(173, 0x92722c85, 5);
  }

  lemma Row5()
    ensures Row(P5, K5)
  {
    hide FromCubeRoot;
    CubeRoot(179, 0xa2bfe8a1, 5);
    CubeRoot(181, 0xa81a664b, 5);
    CubeRoot(191, 0xc24b8b70, 5);
    CubeRoot(193, 0xc76c51a3, 5);
    CubeRoot(197, 0xd192e819, 5);
    CubeRoot(199, 0xd6990624, 5);
    CubeRoot(211, 0xf40e3585, 5);
    CubeRoot(223, 0x106aa070, 6);
  }

  lemma Row6()
    ensures Row(P6, K6)
  {
    hide FromCubeRoot;
    CubeRoot(227, 0x19a4c116, 6);
    CubeRoot(229, 0x1e376c08, 6);
    CubeRoot(233, 0x2748774c, 6);
    CubeRoot(239, 0x34b0bcb5, 6);
    CubeRoot(241, 0x391c0cb3, 6);
    CubeRoot(251, 0x4ed8aa4a, 6);
    CubeRoot(257, 0x5b9cca4f, 6);
    CubeRoot(263, 0x682e6ff3, 6);
  }

  lemma Row7()
    ensures Row(P7, K7)
  {
    hide FromCubeRoot;
    CubeRoot(269, 0x748f82ee, 6);
    CubeRoot(271, 0x78a5636f, 6);
    CubeRoot(277, 0x84c87814, 6);
    CubeRoot(281, 0x8cc70208, 6);
    CubeRoot(283, 0x90befffa, 6);
    CubeRoot(293, 0xa4506ceb, 6);
    CubeRoot(307, 0xbef9a3f7, 6);
    CubeRoot(311, 0xc67178f2, 6);
  }

  /** Entry t of eight rows of eight. */
  lemma EightRows<T>(a: seq<T>, b: seq<T>, c: seq<T>, d: seq<T>, e: seq<T>, f: seq<T>, g: seq<T>, h: seq<T>, t: nat)
    requires |a| == |b| == |c| == |d| == |e| == |f| == |g| == |h| == 8 && t < 64
    ensures var s := a + b + c + d + e + f + g + h;
            && |s| == 64
            && (0 <= t < 8 ==> s[t] == a[t - 0])
            && (8 <= t < 16 ==> s[t] == b[t - 8])
            && (16 <= t < 24 ==> s[t] == c[t - 16])
            && (24 <= t < 32 ==> s[t] == d[t - 24])
            && (32 <= t < 40 ==> s[t] == e[t - 32])
            && (40 <= t < 48 ==> s[t] == f[t - 40])
            && (48 <= t < 56 ==> s[t] == g[t - 48])
            && (56 <= t < 64 ==> s[t] == h[t - 56])
  {
  }

  /** Where the rows lie in the tables. */
  lemma RowAt(t: nat)
    requires t < 64
    ensures |K| == |PRIMES| == 64
    ensures 0 <= t < 8 ==> K[t] == K0[t - 0] && PRIMES[t] == P0[t - 0]
    ensures 8 <= t < 16 ==> K[t] == K1[t - 8] && PRIMES[t] == P1[t - 8]
    ensures 16 <= t < 24 ==> K[t] == K2[t - 16] && PRIMES[t] == P2[t - 16]
    ensures 24 <= t < 32 ==> K[t] == K3[t - 24] && PRIMES[t] == P3[t - 24]
    ensures 32 <= t < 40 ==> K[t] == K4[t - 32] && PRIMES[t] == P4[t - 32]
    ensures 40 <= t < 48 ==> K[t] == K5[t - 40] && PRIMES[t] == P5[t - 40]
    ensures 48 <= t < 56 ==> K[t] == K6[t - 48] && PRIMES[t] == P6[t - 48]
    ensures 56 <= t < 64 ==> K[t] == K7[t - 56] && PRIMES[t] == P7[t - 56]
  {
    EightRows(K0, K1, K2, K3, K4, K5, K6, K7, t);
    EightRows(P0, P1, P2, P3, P4, P5, P6, P7, t);
  }

  /** Every round constant comes from the cube root of its prime. */
  lemma RoundConstants(t: nat)
    requires t < 64
    ensures |K| == |PRIMES| == 64 && FromCubeRoot(PRIMES[t], K[t] as nat)
  {
    hide FromCubeRoot;
    RowAt(t);
    Row0();
    Row1();
    Row2();
    Row3();
    Row4();
    Row5();
    Row6();
    Row7();
  }

  /** Every initial value comes from the square root of its prime. */
  lemma InitialValues(i: nat)
    requires i < 8
    ensures FromSquareRoot(PRIMES[i], INITIAL[i] as nat)
  {
    hide FromSquareRoot;
    RowAt(i);
    SquareRoot(2, 0x6a09e667, 1);
    SquareRoot(3, 0xbb67ae85, 1);
    SquareRoot(5, 0x3c6ef372, 2);
    SquareRoot(7, 0xa54ff53a, 2);
    SquareRoot(11, 0x510e527f, 3);
    SquareRoot(13, 0x9b05688c, 3);
    SquareRoot(17, 0x1f83d9ab, 4);
    SquareRoot(19, 0x5be0cd19, 4);
  }
}
