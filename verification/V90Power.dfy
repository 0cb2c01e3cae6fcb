/** The average power of a constellation, counted by digits rather than by words. */
module V90Power {
  import opened Bits
  import opened V90Tables
  import opened V90Radix
  import opened V90Stream

  /** How many of the words below n have digit j at place value a in radix m. */
  function Count(n: nat, a: nat, m: nat, j: nat): nat
    requires a > 0 && m > 0
  {
    if n == 0 then 0 else Count(n - 1, a, m, j) + if ((n - 1) / a) % m == j then 1 else 0
  }

  /** The same from the quotients of the last word n - 1: r by a, and next by a*m. */
  function Counted(n: nat, a: nat, r: nat, next: nat, k: nat, j: nat): int {
    if j < k then a * (next + 1) else if j == k then n - a * (r - next) else a * next
  }

  /** Quotients and remainders of the word after x. */
  lemma NextQuotient(x: nat, a: nat)
    requires a > 0
    ensures x % a < a - 1 ==> (x + 1) / a == x / a && (x + 1) % a == x % a + 1
    ensures x % a == a - 1 ==> (x + 1) / a == x / a + 1 && (x + 1) % a == 0
  {
    var q, s := x / a, x % a;
    if s < a - 1 {
      DivModUnique(x + 1, a, q, s + 1);
    } else {
      MulAdd(q, 1, a);
      DivModUnique(x + 1, a, q + 1, 0);
    }
  }

  /** The three-case count, one word further: x is the last word counted before. */
  lemma CountedNext(x: nat, a: nat, m: nat, j: nat)
    requires a > 0 && m > 0 && j < m
    ensures var r, r' := x / a, (x + 1) / a;
      Counted(x + 2, a, r', r' / m, r' % m, j) == Counted(x + 1, a, r, r / m, r % m, j) + if r' % m == j then 1 else 0
  {
    var r, s := x / a, x % a;
    NextQuotient(x, a);
    NextQuotient(r, m);
    var y := r / m;
    assert x == a * r + s;
    Products(a, r, y);
  }

  lemma Products(a: int, r: int, y: int)
    ensures a * (r - y) == a * r - a * y && a * (y + 1) == a * y + a
    ensures a * (r + 1 - y) == a * r + a - a * y && a * (r + 1 - (y + 1)) == a * r - a * y
    ensures a * (y + 1 + 1) == a * y + 2 * a
  {
  }

  /** The three-case count is exact. */
  lemma {:induction false} CountIsExact(n: nat, a: nat, m: nat, j: nat)
    requires a > 0 && m > 0 && n > 0 && j < m
    ensures var r := (n - 1) / a; Count(n, a, m, j) == Counted(n, a, r, r / m, r % m, j)
  {
    if n == 1 {
      DivModUnique(0, a, 0, 0);
      DivModUnique(0, m, 0, 0);
      assert Count(0, a, m, j) == 0;
    } else {
      CountIsExact(n - 1, a, m, j);
      CountedNext(n - 2, a, m, j);
    }
  }

  // ----- places -----

  /** The weight of digit i. */
  function Weight(ms: seq<nat>, i: nat): (a: nat)
    requires i <= |ms| && Positive(ms)
    ensures a > 0
  {
    if i == 0 then 1 else
      MulAtLeast(Weight(ms, i - 1), ms[i - 1]);
      Weight(ms, i - 1) * ms[i - 1]
  }

  lemma DivTwice(v: nat, a: nat, m: nat)
    requires a > 0 && m > 0
    ensures a * m > 0 && v / (a * m) == (v / a) / m
  {
    var q, s := v / a, v % a;
    var y, k := q / m, q % m;
    MulAtLeast(a, m);
    MulFlip(a, m);
    MulAssoc(y, m, a);
    MulAdd(y * m, k, a);
    MulLe(k + 1, m, a);
    MulAdd(k, 1, a);
    DivModUnique(v, m * a, y, k * a + s);
  }

  /** What is left of v after dividing by the first i moduli. */
  function Left(v: nat, ms: seq<nat>, i: nat): nat
    requires i <= |ms| && Positive(ms)
  {
    if i == 0 then v else Left(v, ms, i - 1) / ms[i - 1]
  }

  lemma {:induction false} LeftIs(v: nat, ms: seq<nat>, i: nat)
    requires i <= |ms| && Positive(ms)
    ensures Left(v, ms, i) == v / Weight(ms, i)
  {
    if i != 0 {
      LeftIs(v, ms, i - 1);
      DivTwice(v, Weight(ms, i - 1), ms[i - 1]);
    }
  }

  lemma {:induction false} LeftDigits(v: nat, ms: seq<nat>, i: nat)
    requires i <= |ms| && Positive(ms)
    ensures Digits(Left(v, ms, i), ms[i..]) == Digits(v, ms)[i..]
  {
    if i == 0 {
      assert ms[0..] == ms && Digits(v, ms)[0..] == Digits(v, ms);
    } else {
      LeftDigits(v, ms, i - 1);
      DigitsStep(Left(v, ms, i - 1), ms, i - 1, Digits(v, ms));
    }
  }

  /** Digit i of a word by its weight. */
  lemma DigitAt(v: nat, ms: seq<nat>, i: nat)
    requires i < |ms| && Positive(ms)
    ensures Digits(v, ms)[i] == (v / Weight(ms, i)) % ms[i]
  {
    LeftDigits(v, ms, i);
    LeftIs(v, ms, i);
    DigitsStep(Left(v, ms, i), ms, i, Digits(v, ms));
  }

  // ----- energy -----

  function Squared(v: nat): nat {
    v * v
  }

  /** The energy of code k at position i. */
  ghost function Square(p: Params, i: nat, k: nat): nat
    requires Sound(p) && i < 6 && k < p.M[i]
  {
    hide Levels, Squared;
    Squared(Levels(p.alaw)[p.codes[i][k]])
  }

  /** The energy of the first i positions of word w. */
  ghost function WordEnergy(p: Params, w: nat, i: nat): nat
    requires Sound(p) && i <= 6
  {
    if i == 0 then 0 else WordEnergy(p, w, i - 1) + Square(p, i - 1, Digits(w, p.M)[i - 1])
  }

  /** The energy of all words below n, word by word. */
  ghost function TotalEnergy(p: Params, n: nat): nat
    requires Sound(p)
  {
    if n == 0 then 0 else TotalEnergy(p, n - 1) + WordEnergy(p, n - 1, 6)
  }

  /** The energy at position i of all words below n, by their digits below j. */
  ghost function DigitEnergy(p: Params, n: nat, i: nat, j: nat): nat
    requires Sound(p) && i < 6 && j <= p.M[i]
  {
    if j == 0 then 0 else DigitEnergy(p, n, i, j - 1) + Square(p, i, j - 1) * Count(n, Weight(p.M, i), p.M[i], j - 1)
  }

  /** The energy of the first i positions of all words below n. */
  ghost function PositionEnergy(p: Params, n: nat, i: nat): nat
    requires Sound(p) && i <= 6
  {
    if i == 0 then 0 else PositionEnergy(p, n, i - 1) + DigitEnergy(p, n, i - 1, p.M[i - 1])
  }

  lemma OneMore(e: int, c: int)
    ensures e * (c + 1) == e * c + e && e * 0 == 0
  {
  }

  /** One more word adds the energy of its digit. */
  lemma {:induction false} NextDigitEnergy(p: Params, n: nat, i: nat, j: nat)
    requires Sound(p) && i < 6 && j <= p.M[i]
    ensures var k := Digits(n, p.M)[i];
      DigitEnergy(p, n + 1, i, j) == DigitEnergy(p, n, i, j) + if k < j then Square(p, i, k) else 0
  {
    hide Square, Digits, Weight;
    if j != 0 {
      NextDigitEnergy(p, n, i, j - 1);
      DigitAt(n, p.M, i);
      OneMore(Square(p, i, j - 1), Count(n, Weight(p.M, i), p.M[i], j - 1));
    }
  }

  lemma {:induction false} NextPositionEnergy(p: Params, n: nat, i: nat)
    requires Sound(p) && i <= 6
    ensures PositionEnergy(p, n + 1, i) == PositionEnergy(p, n, i) + WordEnergy(p, n, i)
  {
    hide Square, Digits, DigitEnergy;
    if i != 0 {
      NextPositionEnergy(p, n, i - 1);
      NextDigitEnergy(p, n, i - 1, p.M[i - 1]);
    }
  }

  lemma {:induction false} NoDigitEnergy(p: Params, i: nat, j: nat)
    requires Sound(p) && i < 6 && j <= p.M[i]
    ensures DigitEnergy(p, 0, i, j) == 0
  {
    hide Square;
    if j != 0 {
      NoDigitEnergy(p, i, j - 1);
      OneMore(Square(p, i, j - 1), 0);
    }
  }

  lemma {:induction false} NoPositionEnergy(p: Params, i: nat)
    requires Sound(p) && i <= 6
    ensures PositionEnergy(p, 0, i) == 0
  {
    if i != 0 {
      NoPositionEnergy(p, i - 1);
      NoDigitEnergy(p, i - 1, p.M[i - 1]);
    }
  }

  /** By positions and digits or word by word: the same energy. */
  lemma {:induction false} SameEnergy(p: Params, n: nat)
    requires Sound(p)
    ensures PositionEnergy(p, n, 6) == TotalEnergy(p, n)
  {
    hide PositionEnergy, WordEnergy;
    if n == 0 {
      NoPositionEnergy(p, 6);
    } else {
      SameEnergy(p, n - 1);
      NextPositionEnergy(p, n - 1, 6);
    }
  }

  /** The quotients of the last word by the weights; the seventh is read for the last position. */
  method Quotients(p: Params, last: nat) returns (r: seq<nat>, k: seq<nat>)
    requires Sound(p)
    ensures |r| == 7 && |k| == 6
    ensures forall l :: 0 <= l < 7 ==> r[l] == Left(last, p.M, l)
    ensures forall l :: 0 <= l < 6 ==> k[l] == r[l] % p.M[l]
  {
    var n, i := last, 0;
    r, k := [n], [];
    while i < 6
      invariant 0 <= i <= 6 && |r| == i + 1 && |k| == i && n == Left(last, p.M, i)
      invariant forall l :: 0 <= l <= i ==> r[l] == Left(last, p.M, l)
      invariant forall l :: 0 <= l < i ==> k[l] == r[l] % p.M[l]
    {
      k := k + [n % p.M[i]];
      n := n / p.M[i];
      r := r + [n];
      i := i + 1;
    }
  }

  /** The energy at one position. */
  method PositionPower(p: Params, words: nat, i: nat, a: nat, r: nat, next: nat, k: nat) returns (e: nat)
    requires Sound(p) && words > 0 && i < 6 && a == Weight(p.M, i)
    requires r == (words - 1) / a && next == r / p.M[i] && k == r % p.M[i]
    ensures e == DigitEnergy(p, words, i, p.M[i])
  {
    hide Levels, Square, Squared, Digits, Weight, Counted, Count;
    var m, j := p.M[i], 0;
    e := 0;
    while j < m
      invariant 0 <= j <= m && e == DigitEnergy(p, words, i, j)
    {
      CountIsExact(words, a, m, j);
      var count := if j < k then a * (next + 1) else if j == k then words - a * (r - next) else a * next;
      CountedCases(words, a, r, next, k, j);
      SquareIs(p, i, j);
      e := e + Squared(Levels(p.alaw)[p.codes[i][j]]) * count;
      j := j + 1;
    }
  }

  /** The average power over all 2^K words and six positions, rounded down. */
  method ComputePower(p: Params) returns (power: nat)
    requires Sound(p)
    ensures power == TotalEnergy(p, Pow2(p.K)) / (6 * Pow2(p.K))
  {
    hide Levels, Square, Pow2, Digits, TotalEnergy, Weight, DigitEnergy, Left;
    var words := Pow2(p.K);
    var r, k := Quotients(p, words - 1);
    var total, a, i := 0, 1, 0;
    WeightOfFirst(p.M);
    while i < 6
      invariant 0 <= i <= 6 && a == Weight(p.M, i) && total == PositionEnergy(p, words, i)
    {
      LeftIs(words - 1, p.M, i);
      LeftStep(words - 1, p.M, i);
      var e := PositionPower(p, words, i, a, r[i], r[i + 1], k[i]);
      total := total + e;
      WeightStep(p.M, i);
      a := a * p.M[i];
      i := i + 1;
    }
    SameEnergy(p, words);
    power := total / (6 * words);
  }

  lemma LeftStep(v: nat, ms: seq<nat>, i: nat)
    requires i < |ms| && Positive(ms)
    ensures Left(v, ms, i + 1) == Left(v, ms, i) / ms[i]
  {
  }

  // ----- the sums fit 64 bits -----

  lemma SquareBound(p: Params, i: nat, k: nat)
    requires Sound(p) && i < 6 && k < p.M[i]
    ensures Square(p, i, k) <= 0x4000_0000
  {
    hide Levels;
    var u := p.codes[i][k];
    if u == 0 { LevelsAscend(p.alaw, 0, 1); } else { LevelsAscend(p.alaw, 0, u); }
    SquareMonotone(Levels(p.alaw)[u], 32768);
  }

  lemma SquareMonotone(a: nat, b: nat)
    requires a <= b
    ensures Squared(a) <= Squared(b)
  {
  }

  lemma {:induction false} WordBound(p: Params, w: nat, i: nat)
    requires Sound(p) && i <= 6
    ensures WordEnergy(p, w, i) <= i * 0x4000_0000
  {
    hide Square, Digits;
    if i != 0 {
      WordBound(p, w, i - 1);
      SquareBound(p, i - 1, Digits(w, p.M)[i - 1]);
    }
  }

  lemma {:induction false} TotalBound(p: Params, n: nat)
    requires Sound(p)
    ensures TotalEnergy(p, n) <= n * 0x1_8000_0000
  {
    hide WordEnergy;
    if n != 0 {
      TotalBound(p, n - 1);
      WordBound(p, n - 1, 6);
    }
  }

  /** With K at most 31 the energy sum and the divisor fit unsigned 64-bit numbers. */
  lemma NoOverflow(p: Params)
    requires Sound(p)
    ensures TotalEnergy(p, Pow2(p.K)) < 0x1_0000_0000_0000_0000 && 6 * Pow2(p.K) < 0x1_0000_0000_0000_0000
  {
    TotalBound(p, Pow2(p.K));
    Pow2Monotone(p.K, 31);
    Pow2Values();
    Pow2Add(13, 13);
    Pow2Add(26, 5);
  }

  lemma WeightOfFirst(ms: seq<nat>)
    requires Positive(ms)
    ensures Weight(ms, 0) == 1
  {
  }

  lemma WeightStep(ms: seq<nat>, i: nat)
    requires Positive(ms) && i < |ms|
    ensures Weight(ms, i + 1) == Weight(ms, i) * ms[i]
  {
  }

  lemma CountedCases(n: nat, a: nat, r: nat, next: nat, k: nat, j: nat)
    ensures Counted(n, a, r, next, k, j)
         == if j < k then a * (next + 1) else if j == k then n - a * (r - next) else a * next
  {
  }

  lemma SquareIs(p: Params, i: nat, k: nat)
    requires Sound(p) && i < 6 && k < p.M[i]
    ensures Square(p, i, k) == Squared(Levels(p.alaw)[p.codes[i][k]])
  {
  }
}
