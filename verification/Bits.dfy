/** Bit sequences, most significant bit first, and the numbers they stand for. */
module Bits {
  type bit = b: int | 0 <= b <= 1

  type byte = b: int | 0 <= b < 256

  function Pow2(n: nat): (p: nat)
    ensures p >= 1
  {
    if n == 0 then 1 else 2 * Pow2(n - 1)
  }

  lemma Pow2Values()
    ensures Pow2(0) == 1 && Pow2(1) == 2 && Pow2(2) == 4 && Pow2(3) == 8 && Pow2(4) == 16
    ensures Pow2(5) == 32 && Pow2(6) == 64 && Pow2(7) == 128 && Pow2(8) == 256 && Pow2(9) == 512
    ensures Pow2(10) == 1024 && Pow2(11) == 2048 && Pow2(12) == 4096 && Pow2(13) == 8192
  {
  }

  lemma {:induction false} Pow2Add(m: nat, n: nat)
    ensures Pow2(m + n) == Pow2(m) * Pow2(n)
  {
    if n != 0 {
      Pow2Add(m, n - 1);
      assert Pow2(m + n) == 2 * Pow2(m + (n - 1));
    }
  }

  lemma {:induction false} Pow2Monotone(m: nat, n: nat)
    requires m <= n
    ensures Pow2(m) <= Pow2(n)
  {
    if m < n {
      Pow2Monotone(m, n - 1);
    }
  }

  /** v shifted right by n places. */
  function Shr(v: nat, n: nat): nat {
    if n == 0 then v else Shr(v / 2, n - 1)
  }

  /** The number written by a bit sequence, first bit most significant. */
  function Val(s: seq<bit>): (v: nat)
    ensures v < Pow2(|s|)
  {
    if s == [] then 0 else 2 * Val(s[..|s| - 1]) + s[|s| - 1]
  }

  /** The n low-order bits of v, most significant first. */
  function ToBits(v: nat, n: nat): (s: seq<bit>)
    ensures |s| == n
  {
    if n == 0 then [] else ToBits(v / 2, n - 1) + [v % 2]
  }

  function Zeros(n: nat): (s: seq<bit>)
    ensures |s| == n && forall i :: 0 <= i < n ==> s[i] == 0
  {
    seq(n, _ => 0)
  }

  lemma MulAssoc(a: int, b: int, c: int)
    ensures a * (b * c) == (a * b) * c
  {
  }

  lemma MulAdd(a: int, b: int, c: int)
    ensures (a + b) * c == a * c + b * c
  {
  }

  lemma MulLe(a: int, b: int, d: nat)
    requires a <= b
    ensures a * d <= b * d
  {
  }

  /** Reducing by a multiple of d first does not change the remainder by d. */
  lemma ModDivides(v: int, d: int, k: int)
    requires d > 0 && k > 0 && k * d > 0
    ensures (v % (k * d)) % d == v % d
  {
    var q, r := v / (k * d), v % (k * d);
    var q', r' := r / d, r % d;
    MulAssoc(q, k, d);
    MulAdd(q * k, q', d);
    DivModUnique(v, d, q * k + q', r');
  }

  lemma DivModPow2(v: nat, n: nat)
    requires n > 0
    ensures v % Pow2(n) == 2 * ((v / 2) % Pow2(n - 1)) + v % 2
    ensures v / Pow2(n) == (v / 2) / Pow2(n - 1)
  {
    var p := Pow2(n - 1);
    var h := v / 2;
    var q, r := h / p, h % p;
    assert h == q * p + r;
    var m := 2 * r + v % 2;
    assert v == q * Pow2(n) + m && 0 <= m < Pow2(n) by {
      assert v == 2 * h + v % 2;
      assert 2 * (q * p) == q * (2 * p);
    }
    DivModUnique(v, Pow2(n), q, m);
  }

  lemma MulAtLeast(e: int, d: int)
    requires e >= 1 && d > 0
    ensures e * d >= d
  {
  }

  lemma DivModUnique(v: int, d: int, q: int, r: int)
    requires d > 0 && v == q * d + r && 0 <= r < d
    ensures v / d == q && v % d == r
  {
    var e := v / d - q;
    assert e * d == (v / d) * d - q * d;
    if e >= 1 {
      MulAtLeast(e, d);
    } else if e <= -1 {
      MulAtLeast(-e, d);
    }
  }

  lemma {:induction false} ShrDiv(v: nat, n: nat)
    ensures Shr(v, n) == v / Pow2(n)
  {
    if n != 0 {
      ShrDiv(v / 2, n - 1);
      DivModPow2(v, n);
    }
  }

  lemma {:induction false} ToBitsSplit(v: nat, n: nat, m: nat)
    ensures ToBits(v, n + m) == ToBits(Shr(v, m), n) + ToBits(v, m)
  {
    if m == 0 {
      assert ToBits(v, n) + [] == ToBits(v, n);
    } else {
      ToBitsSplit(v / 2, n, m - 1);
      assert ToBits(v, n + m) == ToBits(v / 2, n + (m - 1)) + [v % 2];
    }
  }

  lemma {:induction false} ToBitsMod(v: nat, n: nat, m: nat)
    requires n <= m
    ensures ToBits(v % Pow2(m), n) == ToBits(v, n)
  {
    if n != 0 {
      DivModPow2(v, m);
      ToBitsMod(v / 2, n - 1, m - 1);
      var h := (v / 2) % Pow2(m - 1);
      assert (v % Pow2(m)) / 2 == h && (v % Pow2(m)) % 2 == v % 2;
    }
  }

  lemma {:induction false} ValToBits(v: nat, n: nat)
    ensures Val(ToBits(v, n)) == v % Pow2(n)
  {
    if n != 0 {
      ValToBits(v / 2, n - 1);
      DivModPow2(v, n);
      assert ToBits(v, n)[..n - 1] == ToBits(v / 2, n - 1);
    }
  }

  lemma {:induction false} ToBitsVal(s: seq<bit>)
    ensures ToBits(Val(s), |s|) == s
  {
    if s != [] {
      var t := s[..|s| - 1];
      ToBitsVal(t);
      assert Val(s) / 2 == Val(t) && Val(s) % 2 == s[|s| - 1];
    }
  }

  lemma ValSnoc(s: seq<bit>, x: bit)
    ensures Val(s + [x]) == 2 * Val(s) + x
  {
    assert (s + [x])[..|s|] == s;
  }

  lemma {:induction false} ValConcat(a: seq<bit>, b: seq<bit>)
    ensures Val(a + b) == Val(a) * Pow2(|b|) + Val(b)
  {
    if b == [] {
      assert a + b == a;
    } else {
      var c, x := b[..|b| - 1], b[|b| - 1];
      ValConcat(a, c);
      assert a + b == (a + c) + [x];
      ValSnoc(a + c, x);
      Doubled(Val(a), Pow2(|c|));
    }
  }

  lemma Doubled(v: int, p: int)
    ensures v * (2 * p) == 2 * (v * p)
  {
  }

  lemma {:induction false} ValZeros(n: nat)
    ensures Val(Zeros(n)) == 0
  {
    if n != 0 {
      ValZeros(n - 1);
      assert Zeros(n)[..n - 1] == Zeros(n - 1);
    }
  }

  /** The bits of a byte string in transmission order. */
  function BytesToBits(s: seq<byte>): (r: seq<bit>)
    ensures |r| == 8 * |s|
  {
    if s == [] then [] else BytesToBits(s[..|s| - 1]) + ToBits(s[|s| - 1], 8)
  }

  lemma {:induction false} BytesToBitsAt(s: seq<byte>, k: nat)
    requires k < |s|
    ensures BytesToBits(s)[8 * k..8 * k + 8] == ToBits(s[k], 8)
  {
    var t := s[..|s| - 1];
    if k == |s| - 1 {
      assert BytesToBits(s)[8 * k..8 * k + 8] == ToBits(s[k], 8);
    } else {
      BytesToBitsAt(t, k);
      assert BytesToBits(s)[8 * k..8 * k + 8] == BytesToBits(t)[8 * k..8 * k + 8];
    }
  }
}
