/**
 * Where the constants of SHA-256 come from, FIPS 180-4 sections 4.2.2 and 5.3.3: the fractions of
 * the cube roots of the first 64 primes, and of the square roots of the first 8, to 32 bits.
 */
module Sha256Constants {
  import opened Arithmetic
  import opened Sha256

  // ---- The first 64 primes

  predicate IsPrime(n: nat) {
    n >= 2 && forall d | 2 <= d < n :: n % d != 0
  }

  const PRIMES: seq<seq<nat>> := [
    [2, 3, 5, 7, 11, 13, 17, 19],
    [23, 29, 31, 37, 41, 43, 47, 53],
    [59, 61, 67, 71, 73, 79, 83, 89],
    [97, 101, 103, 107, 109, 113, 127, 131],
    [137, 139, 149, 151, 157, 163, 167, 173],
    [179, 181, 191, 193, 197, 199, 211, 223],
    [227, 229, 233, 239, 241, 251, 257, 263],
    [269, 271, 277, 281, 283, 293, 307, 311]
  ]

  function Prime(t: nat): nat
    requires t < 64
  {
    PRIMES[t / 8][t % 8]
  }

  /** No prime up to 17 divides n, but for n itself. */
  predicate NoSmallFactor(n: nat) {
    && (n <= 2 || n % 2 != 0) && (n <= 3 || n % 3 != 0) && (n <= 5 || n % 5 != 0) && (n <= 7 || n % 7 != 0)
    && (n <= 11 || n % 11 != 0) && (n <= 13 || n % 13 != 0) && (n <= 17 || n % 17 != 0)
  }

  lemma HasSmallFactor(n: nat, k: nat)
    requires 2 <= k <= 17 && k < n && n % k == 0
    ensures !NoSmallFactor(n)
  {
    hide NoSmallFactor;
    if k in {4, 6, 8, 10, 12, 14, 16} {
      FactorOfFactor(n, k, 2, k / 2);
      SmallFactor(n, 2);
    } else if k in {9, 15} {
      FactorOfFactor(n, k, 3, k / 3);
      SmallFactor(n, 3);
    } else {
      SmallFactor(n, k);
    }
  }

  lemma SmallFactor(n: nat, k: nat)
    requires k in {2, 3, 5, 7, 11, 13, 17} && k < n && n % k == 0
    ensures !NoSmallFactor(n)
  {
  }

  lemma FactorOfFactor(n: nat, k: nat, a: nat, b: nat)
    requires k == a * b && a > 0 && k > 0 && n % k == 0
    ensures n % a == 0
  {
    assert n == a * b * (n / k) == a * (b * (n / k));
    DivisionIs(n, a, b * (n / k), 0);
  }

  /** Below 18 * 18 that tells the primes from the others. */
  lemma PrimeExactlyWhen(n: nat)
    requires 2 <= n < 324
    ensures IsPrime(n) <==> NoSmallFactor(n)
  {
    if NoSmallFactor(n) {
      forall d | 2 <= d < n
        ensures n % d != 0
      {
        if n % d == 0 {
          var e := n / d;
          CofactorDivides(n, d, e);
          HasSmallFactor(n, if d <= 17 then d else e);
        }
      }
    }
  }

  lemma CofactorDivides(n: nat, d: nat, e: nat)
    requires 2 <= d < n < 324 && n % d == 0 && e == n / d
    ensures 2 <= e < n && n % e == 0 && (d <= 17 || e <= 17)
  {
    assert n == d * e;
    Products(d, e);
    DivisionIs(n, e, d, 0);
  }

  lemma Products(d: nat, e: nat)
    ensures e == 0 ==> d * e == 0
    ensures e == 1 ==> d * e == d
    ensures d >= 2 && e > 0 ==> d * e > e
    ensures d >= 18 && e >= 18 ==> d * e >= 324
  {
    if d >= 18 && e >= 18 {
      MoreProduct(18, d, e);
      MoreProduct(18, e, 18);
    } else if d >= 2 && e > 0 {
      MoreProduct(2, d, e);
    }
  }

  lemma MoreProduct(a: nat, b: nat, c: nat)
    requires a <= b
    ensures a * c <= b * c
  {
  }

  /** A prime, and after an earlier one with none between. */
  predicate Follows(p: nat, q: nat) {
    p < q && IsPrime(q) && forall n | p < n < q :: !IsPrime(n)
  }

  predicate NoneBetween(p: nat, q: nat)
    decreases q - p
  {
    p + 1 >= q || (!NoSmallFactor(p + 1) && NoneBetween(p + 1, q))
  }

  lemma {:induction false} NoPrimeBetween(p: nat, q: nat, n: nat)
    requires 1 <= p < n < q < 324 && NoneBetween(p, q)
    ensures !IsPrime(n)
    decreases q - p
  {
    hide NoSmallFactor, IsPrime;
    if n == p + 1 {
      PrimeExactlyWhen(n);
    } else {
      NoPrimeBetween(p + 1, q, n);
    }
  }

  lemma FollowsWhen(p: nat, q: nat)
    requires 1 <= p < q < 324 && NoSmallFactor(q) && NoneBetween(p, q)
    ensures Follows(p, q)
  {
    hide NoSmallFactor, IsPrime, NoneBetween;
    PrimeExactlyWhen(q);
    forall n | p < n < q
      ensures !IsPrime(n)
    {
      NoPrimeBetween(p, q, n);
    }
  }

  lemma Primes0()
    ensures Follows(1, 2) && Follows(2, 3) && Follows(3, 5) && Follows(5, 7)
    ensures [Prime(0), Prime(1), Prime(2), Prime(3)] == [2, 3, 5, 7]
  {
    hide IsPrime, Follows;
    FollowsWhen(1, 2);
    FollowsWhen(2, 3);
    FollowsWhen(3, 5);
    FollowsWhen(5, 7);
  }

  lemma Primes4()
    ensures Follows(7, 11) && Follows(11, 13) && Follows(13, 17) && Follows(17, 19)
    ensures [Prime(4), Prime(5), Prime(6), Prime(7)] == [11, 13, 17, 19]
  {
    hide IsPrime, Follows;
    FollowsWhen(7, 11);
    FollowsWhen(11, 13);
    FollowsWhen(13, 17);
    FollowsWhen(17, 19);
  }

  lemma Primes8()
    ensures Follows(19, 23) && Follows(23, 29) && Follows(29, 31) && Follows(31, 37)
    ensures [Prime(8), Prime(9), Prime(10), Prime(11)] == [23, 29, 31, 37]
  {
    hide IsPrime, Follows;
    FollowsWhen(19, 23);
    FollowsWhen(23, 29);
    FollowsWhen(29, 31);
    FollowsWhen(31, 37);
  }

  lemma Primes12()
    ensures Follows(37, 41) && Follows(41, 43) && Follows(43, 47) && Follows(47, 53)
    ensures [Prime(12), Prime(13), Prime(14), Prime(15)] == [41, 43, 47, 53]
  {
    hide IsPrime, Follows;
    FollowsWhen(37, 41);
    FollowsWhen(41, 43);
    FollowsWhen(43, 47);
    FollowsWhen(47, 53);
  }

  lemma Primes16()
    ensures Follows(53, 59) && Follows(59, 61) && Follows(61, 67) && Follows(67, 71)
    ensures [Prime(16), Prime(17), Prime(18), Prime(19)] == [59, 61, 67, 71]
  {
    hide IsPrime, Follows;
    FollowsWhen(53, 59);
    FollowsWhen(59, 61);
    FollowsWhen(61, 67);
    FollowsWhen(67, 71);
  }

  lemma Primes20()
    ensures Follows(71, 73) && Follows(73, 79) && Follows(79, 83) && Follows(83, 89)
    ensures [Prime(20), Prime(21), Prime(22), Prime(23)] == [73, 79, 83, 89]
  {
    hide IsPrime, Follows;
    FollowsWhen(71, 73);
    FollowsWhen(73, 79);
    FollowsWhen(79, 83);
    FollowsWhen(83, 89);
  }

  lemma Primes24()
    ensures Follows(89, 97) && Follows(97, 101) && Follows(101, 103) && Follows(103, 107)
    ensures [Prime(24), Prime(25), Prime(26), Prime(27)] == [97, 101, 103, 107]
  {
    hide IsPrime, Follows;
    FollowsWhen(89, 97);
    FollowsWhen(97, 101);
    FollowsWhen(101, 103);
    FollowsWhen(103, 107);
  }

  lemma Primes28()
    ensures Follows(107, 109) && Follows(109, 113) && Follows(113, 127) && Follows(127, 131)
    ensures [Prime(28), Prime(29), Prime(30), Prime(31)] == [109, 113, 127, 131]
  {
    hide IsPrime, Follows;
    FollowsWhen(107, 109);
    FollowsWhen(109, 113);
    FollowsWhen(113, 127);
    FollowsWhen(127, 131);
  }

  lemma Primes32()
    ensures Follows(131, 137) && Follows(137, 139) && Follows(139, 149) && Follows(149, 151)
    ensures [Prime(32), Prime(33), Prime(34), Prime(35)] == [137, 139, 149, 151]
  {
    hide IsPrime, Follows;
    FollowsWhen(131, 137);
    FollowsWhen(137, 139);
    FollowsWhen(139, 149);
    FollowsWhen(149, 151);
  }

  lemma Primes36()
    ensures Follows(151, 157) && Follows(157, 163) && Follows(163, 167) && Follows(167, 173)
    ensures [Prime(36), Prime(37), Prime(38), Prime(39)] == [157, 163, 167, 173]
  {
    hide IsPrime, Follows;
    FollowsWhen(151, 157);
    FollowsWhen(157, 163);
    FollowsWhen(163, 167);
    FollowsWhen(167, 173);
  }

  lemma Primes40()
    ensures Follows(173, 179) && Follows(179, 181) && Follows(181, 191) && Follows(191, 193)
    ensures [Prime(40), Prime(41), Prime(42), Prime(43)] == [179, 181, 191, 193]
  {
    hide IsPrime, Follows;
    FollowsWhen(173, 179);
    FollowsWhen(179, 181);
    FollowsWhen(181, 191);
    FollowsWhen(191, 193);
  }

  lemma Primes44()
    ensures Follows(193, 197) && Follows(197, 199) && Follows(199, 211) && Follows(211, 223)
    ensures [Prime(44), Prime(45), Prime(46), Prime(47)] == [197, 199, 211, 223]
  {
    hide IsPrime, Follows;
    FollowsWhen(193, 197);
    FollowsWhen(197, 199);
    FollowsWhen(199, 211);
    FollowsWhen(211, 223);
  }

  lemma Primes48()
    ensures Follows(223, 227) && Follows(227, 229) && Follows(229, 233) && Follows(233, 239)
    ensures [Prime(48), Prime(49), Prime(50), Prime(51)] == [227, 229, 233, 239]
  {
    hide IsPrime, Follows;
    FollowsWhen(223, 227);
    FollowsWhen(227, 229);
    FollowsWhen(229, 233);
    FollowsWhen(233, 239);
  }

  lemma Primes52()
    ensures Follows(239, 241) && Follows(241, 251) && Follows(251, 257) && Follows(257, 263)
    ensures [Prime(52), Prime(53), Prime(54), Prime(55)] == [241, 251, 257, 263]
  {
    hide IsPrime, Follows;
    FollowsWhen(239, 241);
    FollowsWhen(241, 251);
    FollowsWhen(251, 257);
    FollowsWhen(257, 263);
  }

  lemma Primes56()
    ensures Follows(263, 269) && Follows(269, 271) && Follows(271, 277) && Follows(277, 281)
    ensures [Prime(56), Prime(57), Prime(58), Prime(59)] == [269, 271, 277, 281]
  {
    hide IsPrime, Follows;
    FollowsWhen(263, 269);
    FollowsWhen(269, 271);
    FollowsWhen(271, 277);
    FollowsWhen(277, 281);
  }

  lemma Primes60()
    ensures Follows(281, 283) && Follows(283, 293) && Follows(293, 307) && Follows(307, 311)
    ensures [Prime(60), Prime(61), Prime(62), Prime(63)] == [283, 293, 307, 311]
  {
    hide IsPrime, Follows;
    FollowsWhen(281, 283);
    FollowsWhen(283, 293);
    FollowsWhen(293, 307);
    FollowsWhen(307, 311);
  }

  /** `Prime` counts the primes from the first on, leaving none out. */
  lemma PrimesInOrder()
    ensures Follows(1, Prime(0)) && forall t | 0 <= t < 63 :: Follows(Prime(t), Prime(t + 1))
  {
    hide Follows, Prime;
    Primes0(); Primes4(); Primes8(); Primes12(); Primes16(); Primes20(); Primes24(); Primes28();
    Primes32(); Primes36(); Primes40(); Primes44(); Primes48(); Primes52(); Primes56(); Primes60();
  }

  // ---- Roots

  /** w and k are the whole part and the first 32 bits after it of the e-th root of q. */
  predicate AreRoot(w: nat, k: bv32, q: nat, e: nat) {
    var c := w * 0x1_0000_0000 + k as nat;
    Pow(c, e) <= q * Pow(0x1_0000_0000, e) < Pow(c + 1, e)
  }

  ghost predicate IsFraction(k: bv32, q: nat, e: nat) {
    exists w: nat :: AreRoot(w, k, q, e)
  }

  lemma CubeRoot(w: nat, n: nat, k: bv32, q: nat)
    requires k as nat == n
    requires var c := w * 0x1_0000_0000 + n; c * c * c <= q * 0x1_0000_0000_0000_0000_0000_0000 < (c + 1) * (c + 1) * (c + 1)
    ensures AreRoot(w, k, q, 3)
  {
    Cube(w * 0x1_0000_0000 + n);
    Cube(w * 0x1_0000_0000 + n + 1);
    Cube(0x1_0000_0000);
  }

  lemma SquareRoot(w: nat, n: nat, k: bv32, q: nat)
    requires k as nat == n
    requires var c := w * 0x1_0000_0000 + n; c * c <= q * 0x1_0000_0000_0000_0000 < (c + 1) * (c + 1)
    ensures AreRoot(w, k, q, 2)
  {
    Cube(w * 0x1_0000_0000 + n);
    Cube(w * 0x1_0000_0000 + n + 1);
    Cube(0x1_0000_0000);
  }

  lemma Cube(c: nat)
    ensures Pow(c, 2) == c * c && Pow(c, 3) == c * c * c
  {
    assert Pow(c, 1) == c * Pow(c, 0) == c;
    assert Pow(c, 3) == c * Pow(c, 2);
    assert c * (c * c) == c * c * c;
  }

  lemma RootRow0()
    ensures AreRoot(1, 0x428a2f98, 2, 3)
    ensures AreRoot(1, 0x71374491, 3, 3)
    ensures AreRoot(1, 0xb5c0fbcf, 5, 3)
    ensures AreRoot(1, 0xe9b5dba5, 7, 3)
    ensures AreRoot(2, 0x3956c25b, 11, 3)
    ensures AreRoot(2, 0x59f111f1, 13, 3)
    ensures AreRoot(2, 0x923f82a4, 17, 3)
    ensures AreRoot(2, 0xab1c5ed5, 19, 3)
    ensures [RoundConstant(0), RoundConstant(1), RoundConstant(2), RoundConstant(3), RoundConstant(4), RoundConstant(5), RoundConstant(6), RoundConstant(7)] == [0x428a2f98, 0x71374491, 0xb5c0fbcf, 0xe9b5dba5, 0x3956c25b, 0x59f111f1, 0x923f82a4, 0xab1c5ed5]
  {
    hide AreRoot;
    CubeRoot(1, 0x428a2f98, 0x428a2f98, 2);
    CubeRoot(1, 0x71374491, 0x71374491, 3);
    CubeRoot(1, 0xb5c0fbcf, 0xb5c0fbcf, 5);
    CubeRoot(1, 0xe9b5dba5, 0xe9b5dba5, 7);
    CubeRoot(2, 0x3956c25b, 0x3956c25b, 11);
    CubeRoot(2, 0x59f111f1, 0x59f111f1, 13);
    CubeRoot(2, 0x923f82a4, 0x923f82a4, 17);
    CubeRoot(2, 0xab1c5ed5, 0xab1c5ed5, 19);
  }

  lemma RootRow1()
    ensures AreRoot(2, 0xd807aa98, 23, 3)
    ensures AreRoot(3, 0x12835b01, 29, 3)
    ensures AreRoot(3, 0x243185be, 31, 3)
    ensures AreRoot(3, 0x550c7dc3, 37, 3)
    ensures AreRoot(3, 0x72be5d74, 41, 3)
    ensures AreRoot(3, 0x80deb1fe, 43, 3)
    ensures AreRoot(3, 0x9bdc06a7, 47, 3)
    ensures AreRoot(3, 0xc19bf174, 53, 3)
    ensures [RoundConstant(8), RoundConstant(9), RoundConstant(10), RoundConstant(11), RoundConstant(12), RoundConstant(13), RoundConstant(14), RoundConstant(15)] == [0xd807aa98, 0x12835b01, 0x243185be, 0x550c7dc3, 0x72be5d74, 0x80deb1fe, 0x9bdc06a7, 0xc19bf174]
  {
    hide AreRoot;
    CubeRoot(2, 0xd807aa98, 0xd807aa98, 23);
    CubeRoot(3, 0x12835b01, 0x12835b01, 29);
    CubeRoot(3, 0x243185be, 0x243185be, 31);
    CubeRoot(3, 0x550c7dc3, 0x550c7dc3, 37);
    CubeRoot(3, 0x72be5d74, 0x72be5d74, 41);
    CubeRoot(3, 0x80deb1fe, 0x80deb1fe, 43);
    CubeRoot(3, 0x9bdc06a7, 0x9bdc06a7, 47);
    CubeRoot(3, 0xc19bf174, 0xc19bf174, 53);
  }

  lemma RootRow2()
    ensures AreRoot(3, 0xe49b69c1, 59, 3)
    ensures AreRoot(3, 0xefbe4786, 61, 3)
    ensures AreRoot(4, 0x0fc19dc6, 67, 3)
    ensures AreRoot(4, 0x240ca1cc, 71, 3)
    ensures AreRoot(4, 0x2de92c6f, 73, 3)
    ensures AreRoot(4, 0x4a7484aa, 79, 3)
    ensures AreRoot(4, 0x5cb0a9dc, 83, 3)
    ensures AreRoot(4, 0x76f988da, 89, 3)
    ensures [RoundConstant(16), RoundConstant(17), RoundConstant(18), RoundConstant(19), RoundConstant(20), RoundConstant(21), RoundConstant(22), RoundConstant(23)] == [0xe49b69c1, 0xefbe4786, 0x0fc19dc6, 0x240ca1cc, 0x2de92c6f, 0x4a7484aa, 0x5cb0a9dc, 0x76f988da]
  {
    hide AreRoot;
    CubeRoot(3, 0xe49b69c1, 0xe49b69c1, 59);
    CubeRoot(3, 0xefbe4786, 0xefbe4786, 61);
    CubeRoot(4, 0x0fc19dc6, 0x0fc19dc6, 67);
    CubeRoot(4, 0x240ca1cc, 0x240ca1cc, 71);
    CubeRoot(4, 0x2de92c6f, 0x2de92c6f, 73);
    CubeRoot(4, 0x4a7484aa, 0x4a7484aa, 79);
    CubeRoot(4, 0x5cb0a9dc, 0x5cb0a9dc, 83);
    CubeRoot(4, 0x76f988da, 0x76f988da, 89);
  }

  lemma RootRow3()
    ensures AreRoot(4, 0x983e5152, 97, 3)
    ensures AreRoot(4, 0xa831c66d, 101, 3)
    ensures AreRoot(4, 0xb00327c8, 103, 3)
    ensures AreRoot(4, 0xbf597fc7, 107, 3)
    ensures AreRoot(4, 0xc6e00bf3, 109, 3)
    ensures AreRoot(4, 0xd5a79147, 113, 3)
    ensures AreRoot(5, 0x06ca6351, 127, 3)
    ensures AreRoot(5, 0x14292967, 131, 3)
    ensures [RoundConstant(24), RoundConstant(25), RoundConstant(26), RoundConstant(27), RoundConstant(28), RoundConstant(29), RoundConstant(30), RoundConstant(31)] == [0x983e5152, 0xa831c66d, 0xb00327c8, 0xbf597fc7, 0xc6e00bf3, 0xd5a79147, 0x06ca6351, 0x14292967]
  {
    hide AreRoot;
    CubeRoot(4, 0x983e5152, 0x983e5152, 97);
    CubeRoot(4, 0xa831c66d, 0xa831c66d, 101);
    CubeRoot(4, 0xb00327c8, 0xb00327c8, 103);
    CubeRoot(4, 0xbf597fc7, 0xbf597fc7, 107);
    CubeRoot(4, 0xc6e00bf3, 0xc6e00bf3, 109);
    CubeRoot(4, 0xd5a79147, 0xd5a79147, 113);
    CubeRoot(5, 0x06ca6351, 0x06ca6351, 127);
    CubeRoot(5, 0x14292967, 0x14292967, 131);
  }

  lemma RootRow4()
    ensures AreRoot(5, 0x27b70a85, 137, 3)
    ensures AreRoot(5, 0x2e1b2138, 139, 3)
    ensures AreRoot(5, 0x4d2c6dfc, 149, 3)
    ensures AreRoot(5, 0x53380d13, 151, 3)
    ensures AreRoot(5, 0x650a7354, 157, 3)
    ensures AreRoot(5, 0x766a0abb, 163, 3)
    ensures AreRoot(5, 0x81c2c92e, 167, 3)
    ensures AreRoot(5, 0x92722c85, 173, 3)
    ensures [RoundConstant(32), RoundConstant(33), RoundConstant(34), RoundConstant(35), RoundConstant(36), RoundConstant(37), RoundConstant(38), RoundConstant(39)] == [0x27b70a85, 0x2e1b2138, 0x4d2c6dfc, 0x53380d13, 0x650a7354, 0x766a0abb, 0x81c2c92e, 0x92722c85]
  {
    hide AreRoot;
    CubeRoot(5, 0x27b70a85, 0x27b70a85, 137);
    CubeRoot(5, 0x2e1b2138, 0x2e1b2138, 139);
    CubeRoot(5, 0x4d2c6dfc, 0x4d2c6dfc, 149);
    CubeRoot(5, 0x53380d13, 0x53380d13, 151);
    CubeRoot(5, 0x650a7354, 0x650a7354, 157);
    CubeRoot(5, 0x766a0abb, 0x766a0abb, 163);
    CubeRoot(5, 0x81c2c92e, 0x81c2c92e, 167);
    CubeRoot(5, 0x92722c85, 0x92722c85, 173);
  }

  lemma RootRow5()
    ensures AreRoot(5, 0xa2bfe8a1, 179, 3)
    ensures AreRoot(5, 0xa81a664b, 181, 3)
    ensures AreRoot(5, 0xc24b8b70, 191, 3)
    ensures AreRoot(5, 0xc76c51a3, 193, 3)
    ensures AreRoot(5, 0xd192e819, 197, 3)
    ensures AreRoot(5, 0xd6990624, 199, 3)
    ensures AreRoot(5, 0xf40e3585, 211, 3)
    ensures AreRoot(6, 0x106aa070, 223, 3)
    ensures [RoundConstant(40), RoundConstant(41), RoundConstant(42), RoundConstant(43), RoundConstant(44), RoundConstant(45), RoundConstant(46), RoundConstant(47)] == [0xa2bfe8a1, 0xa81a664b, 0xc24b8b70, 0xc76c51a3, 0xd192e819, 0xd6990624, 0xf40e3585, 0x106aa070]
  {
    hide AreRoot;
    CubeRoot(5, 0xa2bfe8a1, 0xa2bfe8a1, 179);
    CubeRoot(5, 0xa81a664b, 0xa81a664b, 181);
    CubeRoot(5, 0xc24b8b70, 0xc24b8b70, 191);
    CubeRoot(5, 0xc76c51a3, 0xc76c51a3, 193);
    CubeRoot(5, 0xd192e819, 0xd192e819, 197);
    CubeRoot(5, 0xd6990624, 0xd6990624, 199);
    CubeRoot(5, 0xf40e3585, 0xf40e3585, 211);
    CubeRoot(6, 0x106aa070, 0x106aa070, 223);
  }

  lemma RootRow6()
    ensures AreRoot(6, 0x19a4c116, 227, 3)
    ensures AreRoot(6, 0x1e376c08, 229, 3)
    ensures AreRoot(6, 0x2748774c, 233, 3)
    ensures AreRoot(6, 0x34b0bcb5, 239, 3)
    ensures AreRoot(6, 0x391c0cb3, 241, 3)
    ensures AreRoot(6, 0x4ed8aa4a, 251, 3)
    ensures AreRoot(6, 0x5b9cca4f, 257, 3)
    ensures AreRoot(6, 0x682e6ff3, 263, 3)
    ensures [RoundConstant(48), RoundConstant(49), RoundConstant(50), RoundConstant(51), RoundConstant(52), RoundConstant(53), RoundConstant(54), RoundConstant(55)] == [0x19a4c116, 0x1e376c08, 0x2748774c, 0x34b0bcb5, 0x391c0cb3, 0x4ed8aa4a, 0x5b9cca4f, 0x682e6ff3]
  {
    hide AreRoot;
    CubeRoot(6, 0x19a4c116, 0x19a4c116, 227);
    CubeRoot(6, 0x1e376c08, 0x1e376c08, 229);
    CubeRoot(6, 0x2748774c, 0x2748774c, 233);
    CubeRoot(6, 0x34b0bcb5, 0x34b0bcb5, 239);
    CubeRoot(6, 0x391c0cb3, 0x391c0cb3, 241);
    CubeRoot(6, 0x4ed8aa4a, 0x4ed8aa4a, 251);
    CubeRoot(6, 0x5b9cca4f, 0x5b9cca4f, 257);
    CubeRoot(6, 0x682e6ff3, 0x682e6ff3, 263);
  }

  lemma RootRow7()
    ensures AreRoot(6, 0x748f82ee, 269, 3)
    ensures AreRoot(6, 0x78a5636f, 271, 3)
    ensures AreRoot(6, 0x84c87814, 277, 3)
    ensures AreRoot(6, 0x8cc70208, 281, 3)
    ensures AreRoot(6, 0x90befffa, 283, 3)
    ensures AreRoot(6, 0xa4506ceb, 293, 3)
    ensures AreRoot(6, 0xbef9a3f7, 307, 3)
    ensures AreRoot(6, 0xc67178f2, 311, 3)
    ensures [RoundConstant(56), RoundConstant(57), RoundConstant(58), RoundConstant(59), RoundConstant(60), RoundConstant(61), RoundConstant(62), RoundConstant(63)] == [0x748f82ee, 0x78a5636f, 0x84c87814, 0x8cc70208, 0x90befffa, 0xa4506ceb, 0xbef9a3f7, 0xc67178f2]
  {
    hide AreRoot;
    CubeRoot(6, 0x748f82ee, 0x748f82ee, 269);
    CubeRoot(6, 0x78a5636f, 0x78a5636f, 271);
    CubeRoot(6, 0x84c87814, 0x84c87814, 277);
    CubeRoot(6, 0x8cc70208, 0x8cc70208, 281);
    CubeRoot(6, 0x90befffa, 0x90befffa, 283);
    CubeRoot(6, 0xa4506ceb, 0xa4506ceb, 293);
    CubeRoot(6, 0xbef9a3f7, 0xbef9a3f7, 307);
    CubeRoot(6, 0xc67178f2, 0xc67178f2, 311);
  }

  /** Round constant t is the fraction of the cube root of prime t. */
  lemma RoundConstantsAreRoots()
    ensures forall t: nat | t < 64 :: IsFraction(RoundConstant(t), Prime(t), 3)
  {
    hide AreRoot, Prime, RoundConstant, Follows;
    RootRow0(); Primes0(); Primes4();
    RootRow1(); Primes8(); Primes12();
    RootRow2(); Primes16(); Primes20();
    RootRow3(); Primes24(); Primes28();
    RootRow4(); Primes32(); Primes36();
    RootRow5(); Primes40(); Primes44();
    RootRow6(); Primes48(); Primes52();
    RootRow7(); Primes56(); Primes60();
  }

  lemma InitialRoots()
    ensures AreRoot(1, 0x6a09e667, 2, 2)
    ensures AreRoot(1, 0xbb67ae85, 3, 2)
    ensures AreRoot(2, 0x3c6ef372, 5, 2)
    ensures AreRoot(2, 0xa54ff53a, 7, 2)
    ensures AreRoot(3, 0x510e527f, 11, 2)
    ensures AreRoot(3, 0x9b05688c, 13, 2)
    ensures AreRoot(4, 0x1f83d9ab, 17, 2)
    ensures AreRoot(4, 0x5be0cd19, 19, 2)
  {
    hide AreRoot;
    SquareRoot(1, 0x6a09e667, 0x6a09e667, 2);
    SquareRoot(1, 0xbb67ae85, 0xbb67ae85, 3);
    SquareRoot(2, 0x3c6ef372, 0x3c6ef372, 5);
    SquareRoot(2, 0xa54ff53a, 0xa54ff53a, 7);
    SquareRoot(3, 0x510e527f, 0x510e527f, 11);
    SquareRoot(3, 0x9b05688c, 0x9b05688c, 13);
    SquareRoot(4, 0x1f83d9ab, 0x1f83d9ab, 17);
    SquareRoot(4, 0x5be0cd19, 0x5be0cd19, 19);
  }

  /** The initial words are the fractions of the square roots of the first 8 primes. */
  lemma InitialIsRoots()
    ensures [INITIAL.a, INITIAL.b, INITIAL.c, INITIAL.d, INITIAL.e, INITIAL.f, INITIAL.g, INITIAL.h] == [0x6a09e667, 0xbb67ae85, 0x3c6ef372, 0xa54ff53a, 0x510e527f, 0x9b05688c, 0x1f83d9ab, 0x5be0cd19]
    ensures IsFraction(INITIAL.a, Prime(0), 2) && IsFraction(INITIAL.b, Prime(1), 2) && IsFraction(INITIAL.c, Prime(2), 2) && IsFraction(INITIAL.d, Prime(3), 2) && IsFraction(INITIAL.e, Prime(4), 2) && IsFraction(INITIAL.f, Prime(5), 2) && IsFraction(INITIAL.g, Prime(6), 2) && IsFraction(INITIAL.h, Prime(7), 2)
  {
    hide AreRoot, Prime, Follows;
    InitialRoots();
    Primes0();
    Primes4();
  }
}
