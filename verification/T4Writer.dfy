/** The T.4 encoder and the O_FAX output file, updated in place. */
module T4Writer {
  import opened Bits
  import opened T4Tables
  import opened T4Line

  const MAXRUNS: nat := 8192
  const MAXCODES: nat := MAXRUNS * 25 / 8 / 2 + 1
  const EOLCODE: nat := 1
  const EOLBITS: nat := 12
  const RTCEOL: nat := 5
  const WORD: nat := 0x1_0000_0000

  // ----- bit-field arithmetic -----

  /** Shifting a code into a 32-bit register appends its bits to those pending. */
  lemma ShiftCode(x: nat, pending: nat, code: nat, bits: nat)
    requires pending + bits <= 32 && code < Pow2(bits)
    ensures ToBits((x * Pow2(bits) + code) % Pow2(32), pending + bits) == ToBits(x, pending) + ToBits(code, bits)
  {
    hide ToBits, Pow2;
    var v := x * Pow2(bits) + code;
    ToBitsMod(v, pending + bits, 32);
    ToBitsSplit(v, pending, bits);
    ShrDiv(v, bits);
    DivModUnique(v, Pow2(bits), x, code);
    ToBitsMod(v, bits, bits);
  }

  lemma PutShift(x: nat, pending: nat, code: nat, bits: nat)
    requires pending <= 7 && bits <= 24 && code < Pow2(bits)
    ensures var x' := (x * Pow2(bits) + code) % WORD;
      ToBits(x', pending + bits) == ToBits(x, pending) + ToBits(code, bits) && ToBits(x', bits) == ToBits(code, bits)
  {
    assert Pow2(32) == WORD by { Pow2Values(); Pow2Add(8, 8); Pow2Add(16, 16); }
    ShiftCode(x, pending, code, bits);
    ShiftCode(x, 0, code, bits);
    assert ToBits(x, 0) + ToBits(code, bits) == ToBits(code, bits);
  }

  /** The oldest eight of n + 8 pending bits, as a byte. */
  lemma TopByte(x: nat, n: nat)
    ensures ToBits(x, n + 8) == ToBits(Shr(x, n) % 256, 8) + ToBits(x, n)
  {
    ToBitsSplit(x, 8, n);
    ToBitsMod(Shr(x, n), 8, 8);
    assert Pow2(8) == 256 by { Pow2Values(); }
  }

  lemma BytesSnoc(s: seq<byte>, b: byte)
    ensures BytesToBits(s + [b]) == BytesToBits(s) + ToBits(b, 8)
  {
    assert (s + [b])[..|s|] == s;
  }

  lemma {:induction false} BytesConcat(s: seq<byte>, t: seq<byte>)
    ensures BytesToBits(s + t) == BytesToBits(s) + BytesToBits(t)
  {
    if t == [] {
      assert s + t == s;
    } else {
      var u, b := t[..|t| - 1], t[|t| - 1];
      BytesConcat(s, u);
      assert s + t == (s + u) + [b] && t == u + [b];
      BytesSnoc(s + u, b);
      BytesSnoc(u, b);
    }
  }

  // ----- the flush -----

  /** A one in a byte that is followed by zeros only, if at all, is repeated k places on, and so nowhere. */
  lemma {:induction false} NoOnes(b: seq<bit>, k: nat, i: nat)
    requires 1 <= k <= |b| && i < |b| && b == b[k..] + Zeros(k)
    ensures b[i] == 0
    decreases |b| - i
  {
    assert b[i] == (b[k..] + Zeros(k))[i];
    if i + k < |b| { NoOnes(b, k, i + k); }
  }

  /** The low byte of the register is what is pending, padded with zeros, only if it is zero. */
  lemma PaddedFlush(x: nat, q: nat)
    requires q <= 7
    ensures ToBits(x % 256, 8) == ToBits(x, q) + Zeros(8 - q) <==> x % 256 == 0
  {
    hide ToBits, Zeros;
    var b := ToBits(x % 256, 8);
    LowByte(x, q);
    ZeroByteBits();
    ValToBits(x % 256, 8);
    assert Pow2(8) == 256 by { Pow2Values(); }
    if b == ToBits(x, q) + Zeros(8 - q) {
      forall i | 0 <= i < 8 ensures b[i] == 0 { NoOnes(b, 8 - q, i); }
      assert b == Zeros(8);
    }
    if x % 256 == 0 { assert b[8 - q..] + Zeros(8 - q) == Zeros(8); }
  }

  /** It begins with what is pending only if its first bits are those of its last bits. */
  lemma KeptByFlush(x: nat, q: nat)
    requires q <= 7
    ensures ToBits(x, q) <= ToBits(x % 256, 8) <==> x % 256 / Pow2(8 - q) == x % Pow2(q)
  {
    hide ToBits, Pow2;
    var y := x % 256;
    ToBitsSplit(y, q, 8 - q);
    ShrDiv(y, 8 - q);
    Pow2Add(q, 8 - q);
    assert Pow2(8) == 256 by { Pow2Values(); }
    ValToBits(y / Pow2(8 - q), q);
    ValToBits(x, q);
    SmallQuotient(y, Pow2(q), Pow2(8 - q));
    assert ToBits(y, 8)[..q] == ToBits(y / Pow2(8 - q), q);
    SameBits(x, y / Pow2(8 - q), q);
  }

  lemma AfterPrefix(s: seq<bit>, a: seq<bit>, b: seq<bit>)
    ensures s + a == s + b <==> a == b
    ensures s + b <= s + a <==> b <= a
  {
    assert (s + a)[|s|..] == a && (s + b)[|s|..] == b;
    if s + b <= s + a { assert a[..|b|] == (s + a)[|s|..|s| + |b|]; }
    if b <= a { assert (s + a)[..|s + b|] == s + b; }
  }

  lemma LowByte(x: nat, q: nat)
    requires q <= 8
    ensures ToBits(x, q) == ToBits(x % 256, 8)[8 - q..]
  {
    ToBitsSplit(x, 8 - q, q);
    ToBitsMod(x, 8, 8);
    assert Pow2(8) == 256 by { Pow2Values(); }
  }

  lemma ZeroByteBits()
    ensures ToBits(0, 8) == Zeros(8) && Val(Zeros(8)) == 0
  {
    ValZeros(8);
    ToBitsVal(Zeros(8));
  }

  lemma SmallQuotient(y: nat, p: nat, w: nat)
    requires p >= 1 && w >= 1 && y < p * w
    ensures y / w < p && y / w % p == y / w
  {
    var q := y / w;
    assert y == q * w + y % w;
    if q >= p { MulLe(p, q, w); }
    BelowModulus(q, p);
  }

  lemma BelowModulus(q: nat, p: nat)
    requires q < p
    ensures q % p == q
  {
  }

  lemma SameBits(x: nat, z: nat, q: nat)
    requires z % Pow2(q) == z
    ensures ToBits(x, q) == ToBits(z, q) <==> z == x % Pow2(q)
  {
    hide ToBits, Pow2;
    ValToBits(x, q);
    ValToBits(z, q);
    ToBitsMod(x, q, q);
  }

  // ----- the encoder -----

  class Encoder {
    var x: nat       // bit register (32 bits)
    var shift: int   // bits in x not yet output, less 8

    predicate Valid()
      reads this
    {
      -8 <= shift <= -1
    }

    /** The bits accepted but not yet in a whole byte. */
    function Pending(): (s: seq<bit>)
      requires Valid()
      reads this
      ensures |s| == shift + 8
    {
      ToBits(x, shift + 8)
    }

    constructor ()
      ensures Valid() && Pending() == []
    {
      x, shift := 0, -8;
    }

    /** Append whole bytes of the register to buf. */
    method Flush8(buf: seq<byte>) returns (r: seq<byte>)
      requires -8 <= shift <= 24
      modifies this`shift
      ensures Valid()
      ensures BytesToBits(r) + Pending() == BytesToBits(buf) + ToBits(x, old(shift) + 8)
      ensures buf <= r && 8 * |r| <= 8 * |buf| + old(shift) + 8
    {
      r := buf;
      while shift >= 0
        invariant -8 <= shift <= 24
        invariant BytesToBits(r) + ToBits(x, shift + 8) == BytesToBits(buf) + ToBits(x, old(shift) + 8)
        invariant buf <= r && 8 * |r| + shift == 8 * |buf| + old(shift)
      {
        var b := Shr(x, shift) % 256;
        TopByte(x, shift);
        BytesSnoc(r, b);
        assert BytesToBits(r) + (ToBits(b, 8) + ToBits(x, shift)) == BytesToBits(r + [b]) + ToBits(x, shift);
        r := r + [b];
        shift := shift - 8;
      }
    }

    /** Store a code of 1 to 24 bits. */
    method PutCode(code: nat, bits: nat, buf: seq<byte>) returns (r: seq<byte>)
      requires Valid() && 1 <= bits <= 24 && code < Pow2(bits)
      modifies this
      ensures Valid()
      ensures BytesToBits(r) + Pending() == BytesToBits(buf) + old(Pending()) + ToBits(code, bits)
      ensures ToBits(x, bits) == ToBits(code, bits)
      ensures buf <= r && 8 * |r| <= 8 * |buf| + |old(Pending())| + bits
    {
      hide ToBits, BytesToBits, Pow2;
      PutShift(x, shift + 8, code, bits);
      x := (x * Pow2(bits) + code) % WORD;
      shift := shift + bits;
      ghost var x1 := x;
      r := Flush8(buf);
      assert x == x1;
      assert BytesToBits(buf) + (old(Pending()) + ToBits(code, bits))
          == BytesToBits(buf) + old(Pending()) + ToBits(code, bits);
    }

    /**
     Flush: the call with no bits outputs the low byte of the register, whatever is pending. That pads the pending
     bits with zeros only if the byte is zero, and keeps them only if the byte begins as it ends.
     */
    method PutNothing(buf: seq<byte>) returns (r: seq<byte>)
      requires Valid()
      modifies this`shift
      ensures Valid() && Pending() == [] && r == buf + [x % 256]
      ensures var p := old(Pending());
        && (BytesToBits(r) == BytesToBits(buf) + (p + Zeros(8 - |p|)) <==> x % 256 == 0)
        && (BytesToBits(buf) + p <= BytesToBits(r) <==> x % 256 / Pow2(8 - |p|) == x % Pow2(|p|))
    {
      hide ToBits, BytesToBits, Pow2, Zeros;
      PaddedFlush(x, shift + 8);
      KeptByFlush(x, shift + 8);
      BytesSnoc(buf, x % 256);
      AfterPrefix(BytesToBits(buf), ToBits(x % 256, 8), Pending());
      AfterPrefix(BytesToBits(buf), ToBits(x % 256, 8), Pending() + Zeros(8 - |Pending()|));
      shift := 0;
      r := buf + [Shr(x, 0) % 256];
      shift := shift - 8;
    }

    /** One table code, unless the buffer already holds MAXCODES bytes of this line. */
    method PutTableCode(c: Colour, i: nat, buf: seq<byte>, start: nat) returns (r: seq<byte>)
      requires Valid() && i < NCODES && start <= |buf|
      modifies this
      ensures Valid() && buf <= r
      ensures |buf| - start < MAXCODES ==>
        BytesToBits(r) + Pending() == BytesToBits(buf) + old(Pending()) + CodeBits(c, i)
    {
      hide CodeOf, ToBits;
      r := buf;
      if |buf| - start < MAXCODES {
        CodeInRange(c, i);
        var p := CodeOf(c, i);
        r := PutCode(p.code, p.bits, buf);
      }
    }

    /** One run: a make-up code if needed, then a terminating code. */
    method PutRun(c: Colour, runLength: nat, buf: seq<byte>, start: nat) returns (r: seq<byte>)
      requires Valid() && start <= |buf|
      modifies this
      ensures Valid() && buf <= r
      ensures 8 * (|buf| - start) + |old(Pending())| + |RunBits(c, Clip(runLength))| < 8 * MAXCODES ==>
        BytesToBits(r) + Pending() == BytesToBits(buf) + old(Pending()) + RunBits(c, Clip(runLength))
    {
      hide CodeOf, ToBits, Pending, BytesToBits, CodeBits;
      var rlen := runLength;
      r := buf;
      if rlen > 63 {
        if rlen > MAXRUNLEN { rlen := MAXRUNLEN; }
        r := PutTableCode(c, 63 + rlen / 64, r, start);
      }
      ghost var acc := BytesToBits(r) + Pending();
      r := PutTableCode(c, rlen % 64, r, start);
      if runLength > 63 {
        assert BytesToBits(buf) + old(Pending()) + (CodeBits(c, 63 + rlen / 64) + CodeBits(c, rlen % 64))
            == BytesToBits(buf) + old(Pending()) + CodeBits(c, 63 + rlen / 64) + CodeBits(c, rlen % 64);
      } else {
        assert [] + CodeBits(c, rlen % 64) == CodeBits(c, rlen % 64);
      }
    }

    /** Code a line's runs, first run white. */
    method RunToCode(runs: seq<nat>, codes: seq<byte>) returns (r: seq<byte>)
      requires Valid()
      modifies this
      ensures Valid() && codes <= r
      ensures |LineBits(White, runs)| + 8 <= 8 * MAXCODES ==>
        BytesToBits(r) + Pending() == BytesToBits(codes) + old(Pending()) + LineBits(White, runs)
    {
      hide CodeOf, ToBits, Pending, LineBits, BytesToBits, RunBits;
      r := codes;
      var col, k := White, 0;
      ghost var base, done: seq<bit> := BytesToBits(codes) + Pending(), [];
      ghost var all := LineBits(White, runs);
      LineEnds(runs);
      while k < |runs|
        invariant Valid() && k <= |runs| && codes <= r
        invariant done + LineBits(col, runs[k..]) == all
        invariant |all| + 8 <= 8 * MAXCODES ==> BytesToBits(r) + Pending() == base + done
      {
        LineNext(col, runs, k, done);
        ghost var before := done;
        done := done + RunBits(col, Clip(runs[k]));
        r := PutRun(col, runs[k], r, |codes|);
        assert base + before + RunBits(col, Clip(runs[k])) == base + done;
        col := Other(col);
        k := k + 1;
      }
    }
  }

  lemma LineEnds(runs: seq<nat>)
    ensures [] + LineBits(White, runs[0..]) == LineBits(White, runs)
    ensures forall c, s: seq<bit> :: s + LineBits(c, runs[|runs|..]) == s
  {
    assert runs[0..] == runs;
  }

  lemma LineNext(c: Colour, runs: seq<nat>, k: nat, done: seq<bit>)
    requires k < |runs|
    ensures done + LineBits(c, runs[k..]) == done + RunBits(c, Clip(runs[k])) + LineBits(Other(c), runs[k + 1..])
  {
    hide RunBits;
    assert runs[k..][1..] == runs[k + 1..];
  }

  lemma CodeInRange(c: Colour, i: nat)
    requires i < NCODES
    ensures 1 <= CodeOf(c, i).bits <= 24 && CodeOf(c, i).code < Pow2(CodeOf(c, i).bits)
  {
    CodeShape(c, i);
    var p := CodeOf(c, i);
    var n := 13 - p.bits;
    SpanIsShift(p.code + 1, n);
    assert Pow2(p.bits + n) == 8192 by { Pow2Values(); }
    CodeFits(p.code, p.bits, n);
  }
}
