/** The modulus encoder: K data bits as six digits in mixed radix, and back. */
module V90Radix {
  import opened Bits

  /** A bit as the mapper's sign arithmetic uses it. */
  type u1 = b: bv8 | b <= 1

  function Num(b: u1): (n: nat)
    ensures n <= 1
  {
    if b == 0 then 0 else 1
  }

  function Product(ms: seq<nat>): nat {
    if ms == [] then 1 else ms[0] * Product(ms[1..])
  }

  predicate Positive(ms: seq<nat>) {
    forall i :: 0 <= i < |ms| ==> ms[i] >= 1
  }

  /** The digits of v, least significant first; what is left of v after them is dropped. */
  function Digits(v: nat, ms: seq<nat>): (ds: seq<nat>)
    requires Positive(ms)
    ensures |ds| == |ms| && forall i :: 0 <= i < |ds| ==> ds[i] < ms[i]
  {
    if ms == [] then [] else [v % ms[0]] + Digits(v / ms[0], ms[1..])
  }

  /** The number with these digits. */
  function Number(ds: seq<nat>, ms: seq<nat>): nat
    requires |ds| == |ms|
  {
    if ms == [] then 0 else Number(ds[1..], ms[1..]) * ms[0] + ds[0]
  }

  lemma {:induction false} ProductPositive(ms: seq<nat>)
    requires Positive(ms)
    ensures Product(ms) >= 1
  {
    if ms != [] {
      ProductPositive(ms[1..]);
      MulAtLeast(ms[0], Product(ms[1..]));
    }
  }

  lemma DropHead(a: nat, b: seq<nat>)
    ensures ([a] + b)[1..] == b
  {
  }

  lemma MulFlip(a: nat, b: nat)
    ensures a * b == b * a
  {
  }

  /** v = m*h + l with l < m, and h reduced by p, is v reduced by m*p. */
  lemma ModProduct(v: nat, m: nat, p: nat)
    requires m >= 1 && p >= 1
    ensures m * p >= 1 && v % (m * p) == ((v / m) % p) * m + v % m
  {
    var h, l := v / m, v % m;
    var q, r := h / p, h % p;
    MulAtLeast(p, m);
    MulFlip(m, p);
    MulAdd(q * p, r, m);
    MulAssoc(q, p, m);
    MulLe(r + 1, p, m);
    MulAdd(r, 1, m);
    DivModUnique(v, p * m, q, r * m + l);
  }

  lemma SmallMod(v: nat, p: nat)
    requires v < p
    ensures v % p == v
  {
    DivModUnique(v, p, 0, v);
  }

  /** Digits and back: the remainder by the product of the moduli. */
  lemma {:induction false} NumberOfDigits(v: nat, ms: seq<nat>)
    requires Positive(ms)
    ensures Product(ms) >= 1 && Number(Digits(v, ms), ms) == v % Product(ms)
  {
    ProductPositive(ms);
    if ms != [] {
      NumberOfDigits(v / ms[0], ms[1..]);
      DropHead(v % ms[0], Digits(v / ms[0], ms[1..]));
      ProductPositive(ms[1..]);
      ModProduct(v, ms[0], Product(ms[1..]));
    }
  }

  /** The number of a little-endian bit string. */
  function Word(bits: seq<u1>): (v: nat)
    ensures v < Pow2(|bits|)
  {
    if bits == [] then 0 else 2 * Word(bits[1..]) + Num(bits[0])
  }

  /** The n low-order bits of v, least significant first. */
  function LowBitsOf(v: nat, n: nat): (bits: seq<u1>)
    ensures |bits| == n
  {
    if n == 0 then [] else [if v % 2 == 0 then 0 else 1] + LowBitsOf(v / 2, n - 1)
  }

  lemma {:induction false} BitsOfWord(bits: seq<u1>)
    ensures LowBitsOf(Word(bits), |bits|) == bits
  {
    if bits != [] {
      BitsOfWord(bits[1..]);
      var w := Word(bits[1..]);
      assert (2 * w + Num(bits[0])) / 2 == w;
      assert bits == [bits[0]] + bits[1..];
    }
  }

  lemma {:induction false} WordOfBits(v: nat, n: nat)
    ensures Word(LowBitsOf(v, n)) == v % Pow2(n)
  {
    if n != 0 {
      WordOfBits(v / 2, n - 1);
      DivModPow2(v, n);
      assert LowBitsOf(v, n)[1..] == LowBitsOf(v / 2, n - 1);
    }
  }

  /** The K data bits come back from the digits. */
  predicate Recovers(bits: seq<u1>, ms: seq<nat>)
    requires Positive(ms)
  {
    LowBitsOf(Number(Digits(Word(bits), ms), ms), |bits|) == bits
  }

  /** Every K-bit word survives the digits exactly when there are at least 2^K digit combinations. */
  lemma ModulusCoding(k: nat, ms: seq<nat>)
    requires Positive(ms)
    ensures (forall bits: seq<u1> :: |bits| == k ==> Recovers(bits, ms)) <==> Pow2(k) <= Product(ms)
  {
    hide Digits, Number, Product, Pow2, Word, LowBitsOf;
    var p := Product(ms);
    ProductPositive(ms);
    if Pow2(k) <= p {
      forall bits: seq<u1> | |bits| == k ensures Recovers(bits, ms) {
        FitsRecovers(bits, ms);
      }
    } else {
      var bits := LowBitsOf(p, k);
      WordOfBits(p, k);
      NumberOfDigits(p, ms);
      SmallMod(p, Pow2(k));
      DivModUnique(p, p, 1, 0);
      WordOfBits(0, k);
      SmallMod(0, Pow2(k));
      assert !Recovers(bits, ms);
    }
  }

  lemma FitsRecovers(bits: seq<u1>, ms: seq<nat>)
    requires Positive(ms) && Pow2(|bits|) <= Product(ms)
    ensures Recovers(bits, ms) && Number(Digits(Word(bits), ms), ms) == Word(bits)
  {
    hide Digits, Number, Product, Pow2, Word, LowBitsOf;
    NumberOfDigits(Word(bits), ms);
    SmallMod(Word(bits), Product(ms));
    BitsOfWord(bits);
  }

  /** Setting bit i of a word whose higher bits are clear. */
  lemma {:induction false} WordSnoc(bits: seq<u1>, b: u1)
    ensures Word(bits + [b]) == Word(bits) + Num(b) * Pow2(|bits|)
  {
    if bits == [] {
      assert [] + [b] == [b];
    } else {
      WordSnoc(bits[1..], b);
      assert (bits + [b])[1..] == bits[1..] + [b];
      MulTwice(Num(b), Pow2(|bits| - 1));
    }
  }

  lemma MulTwice(a: nat, b: nat)
    ensures 2 * (a * b) == a * (2 * b)
  {
  }

  /** The digits from position i on are those of the quotient left there. */
  lemma DigitsStep(v: nat, ms: seq<nat>, i: nat, ds: seq<nat>)
    requires Positive(ms) && i < |ms| == |ds| && Digits(v, ms[i..]) == ds[i..]
    ensures ds[i] == v % ms[i] && Digits(v / ms[i], ms[i + 1..]) == ds[i + 1..]
  {
    var rest := ms[i..];
    assert rest[0] == ms[i] && rest[1..] == ms[i + 1..];
    assert ds[i..][0] == ds[i] && ds[i..][1..] == ds[i + 1..];
    DropHead(v % ms[i], Digits(v / ms[i], ms[i + 1..]));
  }
}
