/** Bit order on serial links: the table that reverses the bits of a byte. */
module BitOrder {
  import opened Bits

  /** Entry i of the reversal table, as initbittab computes it. */
  function NormalBits(i: byte): byte {
    i % 2 * 128 + i / 2 % 2 * 64 + i / 4 % 2 * 32 + i / 8 % 2 * 16
    + i / 16 % 2 * 8 + i / 32 % 2 * 4 + i / 64 % 2 * 2 + i / 128 % 2
  }

  lemma Peel(i: nat, b: bit, rest: nat)
    requires i == b + 2 * rest
    ensures i % 2 == b && i / 2 == rest
  {
  }

  lemma Halves(i: nat)
    ensures i / 4 == i / 2 / 2 && i / 8 == i / 4 / 2 && i / 16 == i / 8 / 2 && i / 32 == i / 16 / 2
    ensures i / 64 == i / 32 / 2 && i / 128 == i / 64 / 2
  {
  }

  /** The bits of a byte come out in the opposite order. */
  lemma ReversedBits(i: byte, a: bit, b: bit, c: bit, d: bit, e: bit, f: bit, g: bit, h: bit)
    requires i == a + 2 * b + 4 * c + 8 * d + 16 * e + 32 * f + 64 * g + 128 * h
    ensures NormalBits(i) == h + 2 * g + 4 * f + 8 * e + 16 * d + 32 * c + 64 * b + 128 * a
  {
    Halves(i);
    Peel(i, a, b + 2 * c + 4 * d + 8 * e + 16 * f + 32 * g + 64 * h);
    Peel(i / 2, b, c + 2 * d + 4 * e + 8 * f + 16 * g + 32 * h);
    Peel(i / 4, c, d + 2 * e + 4 * f + 8 * g + 16 * h);
    Peel(i / 8, d, e + 2 * f + 4 * g + 8 * h);
    Peel(i / 16, e, f + 2 * g + 4 * h);
    Peel(i / 32, f, g + 2 * h);
    Peel(i / 64, g, h);
    Peel(h, h, 0);
  }

  /** Reversing twice restores a byte, so the reversal is a permutation of the bytes. */
  lemma NormalBitsInvolution(i: byte)
    ensures NormalBits(NormalBits(i)) == i
  {
    hide NormalBits;
    Halves(i);
    var a, b, c, d, e, f, g, h := i % 2, i / 2 % 2, i / 4 % 2, i / 8 % 2, i / 16 % 2, i / 32 % 2, i / 64 % 2, i / 128;
    ReversedBits(i, a, b, c, d, e, f, g, h);
    ReversedBits(NormalBits(i), h, g, f, e, d, c, b, a);
  }

  /** A byte that reads the same in both directions. */
  predicate Palindrome(b: byte) {
    b % 2 == b / 128 && b / 2 % 2 == b / 64 % 2 && b / 4 % 2 == b / 32 % 2 && b / 8 % 2 == b / 16 % 2
  }

  /** Binary digits are unique: a number is its own reversal only if its digits are. */
  lemma SameDigits(a: bit, b: bit, c: bit, d: bit, e: bit, f: bit, g: bit, h: bit)
    ensures a + 2 * b + 4 * c + 8 * d + 16 * e + 32 * f + 64 * g + 128 * h
         == h + 2 * g + 4 * f + 8 * e + 16 * d + 32 * c + 64 * b + 128 * a
        <==> a == h && b == g && c == f && d == e
  {
  }

  lemma PalindromeStays(i: byte)
    ensures NormalBits(i) == i <==> Palindrome(i)
  {
    hide NormalBits;
    Halves(i);
    ReversedBits(i, i % 2, i / 2 % 2, i / 4 % 2, i / 8 % 2, i / 16 % 2, i / 32 % 2, i / 64 % 2, i / 128);
    SameDigits(i % 2, i / 2 % 2, i / 4 % 2, i / 8 % 2, i / 16 % 2, i / 32 % 2, i / 64 % 2, i / 128);
  }

  /** A byte string with every byte's bits reversed. */
  function NormalBytes(s: seq<byte>): (r: seq<byte>)
    ensures |r| == |s| && forall k :: 0 <= k < |s| ==> r[k] == NormalBits(s[k])
  {
    seq(|s|, k requires 0 <= k < |s| => NormalBits(s[k]))
  }
}
