/** Scan lines as bytes, most significant bit first and black set, to run lengths and back. */
module Bitmap {
  import opened Bits
  import opened Runs
  import opened RunOr
  import opened ByteRuns

  /** The pixels of a line of bytes. */
  function Rows(s: seq<byte>): (p: seq<bool>)
    ensures |p| == 8 * |s|
  {
    if s == [] then [] else Rows(s[..|s| - 1]) + Row(s[|s| - 1])
  }

  lemma RowsSnoc(s: seq<byte>, c: byte)
    ensures Rows(s + [c]) == Rows(s) + Row(c)
  {
    assert (s + [c])[..|s|] == s;
  }

  /** All runs positive but possibly the first. */
  predicate Tight(runs: seq<int>) {
    runs != [] && runs[0] >= 0 && forall i :: 1 <= i < |runs| ==> runs[i] >= 1
  }

  // ----- bytes to runs -----

  /** Add a byte to the runs made so far; the last run has the colour of the last pixel. */
  method ByteToRun(c: byte, runs: array<int>, k: nat) returns (j: nat)
    requires k + 8 < runs.Length && Tight(runs[..k + 1])
    modifies runs
    ensures k <= j <= k + 8 && Tight(runs[..j + 1]) && Black(j) == PixelAt(c, 0)
    ensures Pixels(runs[..j + 1]) == old(Pixels(runs[..k + 1])) + Row(c)
  {
    hide Pixels, Alternating, Row, Put, Same, PixelAt, Tight, MaxRuns, RunList, Black;
    var q, first := RunList(c), PixelAt(c, 7);
    ListIsMaxRuns(c);
    MaxRunsStandFor(Row(c));
    TightIsProper(runs[..k + 1]);
    ghost var line := runs[..k + 1];
    var black := first;
    j := k;
    var i := 0;
    NoAlternation(first);
    assert q[..0] == [] && Pixels(line) + [] == Pixels(line);
    while i < |q|
      invariant 0 <= i <= |q| && k <= j <= k + i && Tight(runs[..j + 1]) && Proper(runs[..j + 1])
      invariant black == Colour(first, i) && (i > 0 ==> Black(j) == !black)
      invariant Pixels(runs[..j + 1]) == Pixels(line) + Alternating(q[..i], first)
    {
      ghost var before := runs[..j + 1];
      PutPixels(before, black, q[i]);
      AlternatingNext(Pixels(line), q, i, first);
      PutTight(before, black, q[i]);
      j := PutRun(runs, j, black, q[i]);
      assert runs[..j + 1] == Put(before, black, q[i]);
      black := !black;
      i := i + 1;
    }
    assert q[..|q|] == q;
  }

  lemma TightIsProper(c: seq<int>)
    requires Tight(c)
    ensures Proper(c)
  {
  }

  lemma AlternatingNext(line: seq<bool>, q: seq<int>, i: nat, first: bool)
    requires i < |q| && q[i] >= 0
    ensures line + Alternating(q[..i + 1], first) == line + Alternating(q[..i], first) + Same(Colour(first, i), q[i])
  {
    hide Alternating, Same;
    assert q[..i + 1] == q[..i] + [q[i]];
    AlternatingSnoc(q[..i], first, q[i]);
    Assoc(line, Alternating(q[..i], first), Same(Colour(first, i), q[i]));
  }

  lemma NoAlternation(c: bool)
    ensures Alternating([], c) == []
  {
  }

  lemma PutTight(c: seq<int>, black: bool, n: nat)
    requires Tight(c) && n >= 1
    ensures Proper(c) && Tight(Put(c, black, n)) && Black(|Put(c, black, n)| - 1) == black
  {
  }

  /** Convert a line of bytes to runs, white first; returns their number. */
  method BitToRun(bits: seq<byte>, runs: array<int>) returns (nr: nat)
    requires runs.Length > 8 * |bits|
    modifies runs
    ensures 1 <= nr <= runs.Length && Tight(runs[..nr])
    ensures Pixels(runs[..nr]) == Rows(bits) && Width(runs[..nr]) == 8 * |bits|
  {
    hide Pixels, Row;
    runs[0] := 0;
    var k, n := 0, 0;
    assert runs[..1] == [0];
    ZeroRun();
    assert bits[..0] == [];
    while n < |bits|
      invariant 0 <= n <= |bits| && k <= 8 * n && Tight(runs[..k + 1])
      invariant Pixels(runs[..k + 1]) == Rows(bits[..n])
    {
      assert bits[..n + 1] == bits[..n] + [bits[n]];
      RowsSnoc(bits[..n], bits[n]);
      k := ByteToRun(bits[n], runs, k);
      n := n + 1;
    }
    assert bits[..n] == bits;
    nr := k + 1;
    WidthIs(runs[..nr]);
  }

  lemma ZeroRun()
    ensures Pixels([0]) == []
  {
    ZerosVanish([0], 1);
    assert [0][..1] == [0];
  }

  // ----- runs to bytes -----

  /** A byte with its right b bits set to one colour. */
  function Fill(v: byte, b: nat, black: bool): byte
    requires b <= 8
  {
    v / Power(b) * Power(b) + if black then Power(b) - 1 else 0
  }

  /** A bit in the part that was filled. */
  lemma FilledPart(q: nat, b: nat, black: bool, i: nat)
    requires i < b <= 8
    ensures (q * Power(b) + if black then Power(b) - 1 else 0) / Power(i) % 2 == if black then 1 else 0
  {
    var w, k := Power(i), Power(b - i - 1);
    PowerParts(b, i);
    FillDigits(q, k, w);
    if black {
      DivModUnique(q * Power(b) + (Power(b) - 1), w, 2 * (q * k + k - 1) + 1, w - 1);
    } else {
      DivModUnique(q * Power(b), w, 2 * (q * k), 0);
    }
  }

  lemma PowerRatio(b: nat, i: nat)
    requires b <= i < 8
    ensures Power(i) == Power(i - b) * Power(b)
  {
  }

  /** Filling sets the right b pixels and keeps the others. */
  lemma FillPixel(v: byte, b: nat, black: bool, i: nat)
    requires b <= 8 && i < 8
    ensures PixelAt(Fill(v, b, black), i) == if i < b then black else PixelAt(v, i)
  {
    hide Power;
    var p := Power(b);
    var q, r := v / p, v % p;
    if i < b {
      FilledPart(q, b, black, i);
    } else {
      PowerRatio(b, i);
      DropLow(q, p, Power(i - b), if black then p - 1 else 0);
      DropLow(q, p, Power(i - b), r);
      assert v == q * p + r;
    }
  }

  lemma FillRow(v: byte, b: nat, black: bool)
    requires b <= 8
    ensures Row(Fill(v, b, black)) == Row(v)[..8 - b] + Same(black, b)
  {
    hide Fill, PixelAt;
    forall i | 0 <= i < 8 ensures Row(Fill(v, b, black))[i] == (Row(v)[..8 - b] + Same(black, b))[i] {
      FillPixel(v, b, black, 7 - i);
    }
  }

  lemma PowerParts(b: nat, i: nat)
    requires i < b <= 8
    ensures Power(b) == 2 * Power(b - i - 1) * Power(i)
  {
  }

  lemma FillDigits(q: nat, k: nat, w: nat)
    ensures q * (2 * k * w) + (2 * k * w - 1) == (2 * (q * k + k - 1) + 1) * w + (w - 1)
    ensures q * (2 * k * w) == (2 * (q * k)) * w
  {
  }

  // ----- the bit map -----

  /** The bytes before k, and the left 8 - b pixels of byte k. */
  ghost predicate Drawn(buf: seq<byte>, k: nat, b: nat, p: seq<bool>) {
    && k < |buf| && 1 <= b <= 8
    && p == Rows(buf[..k]) + Row(buf[k])[..8 - b]
  }

  /** Fill the rest of a byte and go on to the next, or stay in it. */
  lemma DrawnInByte(buf: seq<byte>, k: nat, b: nat, p: seq<bool>, black: bool, n: nat)
    requires Drawn(buf, k, b, p) && n < b
    ensures Drawn(buf[k := Fill(buf[k], b, black)], k, b - n, p + Same(black, n))
    ensures Row(Fill(buf[k], b, black))[8 - (b - n)..] == Same(black, b - n)
  {
    hide Row, Rows, Same;
    FillRow(buf[k], b, black);
    var after := buf[k := Fill(buf[k], b, black)];
    assert after[..k] == buf[..k];
    TakeMore(Row(buf[k])[..8 - b], black, b, n);
    Assoc(Rows(buf[..k]), Row(buf[k])[..8 - b], Same(black, n));
  }

  lemma TakeMore(a: seq<bool>, black: bool, b: nat, n: nat)
    requires n <= b && |a| + b == 8
    ensures (a + Same(black, b))[..8 - (b - n)] == a + Same(black, n)
    ensures (a + Same(black, b))[8 - (b - n)..] == Same(black, b - n)
  {
  }

  lemma DrawnNextByte(buf: seq<byte>, k: nat, b: nat, p: seq<bool>, black: bool)
    requires Drawn(buf, k, b, p) && k + 1 < |buf|
    ensures Drawn(buf[k := Fill(buf[k], b, black)], k + 1, 8, p + Same(black, b))
  {
    hide Row, Rows, Same;
    FillRow(buf[k], b, black);
    var after := buf[k := Fill(buf[k], b, black)];
    assert after[..k + 1] == buf[..k] + [Fill(buf[k], b, black)];
    RowsSnoc(buf[..k], Fill(buf[k], b, black));
    Assoc(Rows(buf[..k]), Row(buf[k])[..8 - b], Same(black, b));
    assert p + Same(black, b) + [] == p + Same(black, b);
    assert Row(after[k + 1])[..0] == [];
  }

  /** What is right of the pixels drawn in their last byte has one colour. */
  ghost predicate RestIs(buf: seq<byte>, k: nat, b: nat, black: bool) {
    k < |buf| && 1 <= b <= 8 && Row(buf[k])[8 - b..] == Same(black, b)
  }

  /** One run into the bit map; the rest of its last byte gets its colour. */
  method DrawRun(buf: array<byte>, k: nat, b: nat, black: bool, len: nat, ghost p: seq<bool>) returns (k': nat, b': nat)
    requires Drawn(buf[..], k, b, p) && (|p| + len) / 8 < buf.Length
    modifies buf
    ensures Drawn(buf[..], k', b', p + Same(black, len)) && RestIs(buf[..], k', b', black)
  {
    hide Drawn, Fill, Same, Row;
    DrawnPlace(buf[..], k, b, p);
    k', b' := k, b;
    ghost var was := buf[..];
    if b > len {
      DrawnInByte(was, k, b, p, black, len);
      buf[k] := Fill(buf[k], b, black);
      assert buf[..] == was[k := Fill(was[k], b, black)];
      b' := b - len;
    } else {
      DrawnNextByte(was, k, b, p, black);
      buf[k] := Fill(buf[k], b, black);
      assert buf[..] == was[k := Fill(was[k], b, black)];
      var left: nat, done := len - b, b;
      k' := k + 1;
      while left >= 8
        invariant left + done == len && Drawn(buf[..], k', 8, p + Same(black, done))
        invariant 8 * k' == |p| + done
      {
        ghost var now := buf[..];
        DrawnNextByte(now, k', 8, p + Same(black, done), black);
        buf[k'] := Fill(buf[k'], 8, black);
        assert buf[..] == now[k' := Fill(now[k'], 8, black)];
        SameMore(p, black, done, 8);
        k', left, done := k' + 1, left - 8, done + 8;
      }
      ghost var now := buf[..];
      DrawnInByte(now, k', 8, p + Same(black, done), black, left);
      buf[k'] := Fill(buf[k'], 8, black);
      assert buf[..] == now[k' := Fill(now[k'], 8, black)];
      SameMore(p, black, done, left);
      b' := 8 - left;
    }
  }

  lemma DrawnPlace(buf: seq<byte>, k: nat, b: nat, p: seq<bool>)
    requires Drawn(buf, k, b, p)
    ensures |p| == 8 * k + (8 - b) && k < |buf| && 1 <= b <= 8
  {
  }

  lemma SameMore(p: seq<bool>, black: bool, m: nat, n: nat)
    ensures p + Same(black, m) + Same(black, n) == p + Same(black, m + n)
  {
    SameConcat(black, m, n);
    Assoc(p, Same(black, m), Same(black, n));
  }

  /** Draw a line of runs; returns the number of bytes it takes. */
  method RunToBit(runs: array<int>, nr: nat, buf: array<byte>) returns (n: nat)
    requires nr <= runs.Length && Proper(runs[..nr]) && Width(runs[..nr]) / 8 < buf.Length
    modifies buf
    ensures n <= buf.Length && n == (old(|Pixels(runs[..nr])|) + 7) / 8
    ensures old(Pixels(runs[..nr])) <= Rows(buf[..n])
    ensures nr > 0 ==> var p := old(Pixels(runs[..nr])); Rows(buf[..n]) == p + Same(Black(nr - 1), 8 * n - |p|)
  {
    hide Pixels, Drawn, Same, Width, RestIs, Rows, Black;
    ghost var line := runs[..nr];
    WidthIs(line);
    var k, b, i := 0, 8, 0;
    NothingDrawn(buf[..]);
    NoPixels();
    assert line[..0] == [];
    while i < nr
      invariant 0 <= i <= nr && Drawn(buf[..], k, b, Pixels(line[..i]))
      invariant i > 0 ==> RestIs(buf[..], k, b, Black(i - 1))
      invariant runs[..nr] == line
    {
      WidthStep(line, i);
      WidthIs(line[..i]);
      PrefixPixels(line, i + 1);
      assert line[..i + 1] == line[..i] + [line[i]];
      PixelsSnoc(line[..i], line[i]);
      assert runs[i] == line[i];
      k, b := DrawRun(buf, k, b, Black(i), runs[i], Pixels(line[..i]));
      i := i + 1;
    }
    assert line[..nr] == line;
    DrawnPlace(buf[..], k, b, Pixels(line));
    n := if b < 8 then k + 1 else k;
    DrawnPrefix(buf[..], k, b, Pixels(line));
    if nr > 0 { DrawnRest(buf[..], k, b, Pixels(line), Black(nr - 1)); }
    assert buf[..][..n] == buf[..n];
  }

  lemma NothingDrawn(buf: seq<byte>)
    requires buf != []
    ensures Drawn(buf, 0, 8, [])
  {
    assert buf[..0] == [];
  }

  lemma DrawnPrefix(buf: seq<byte>, k: nat, b: nat, p: seq<bool>)
    requires Drawn(buf, k, b, p)
    ensures b == 8 ==> Rows(buf[..k]) == p
    ensures p <= Rows(buf[..k + 1])
  {
    hide Row;
    assert buf[..k + 1] == buf[..k] + [buf[k]];
    RowsSnoc(buf[..k], buf[k]);
    assert Row(buf[k]) == Row(buf[k])[..8 - b] + Row(buf[k])[8 - b..];
    Assoc(Rows(buf[..k]), Row(buf[k])[..8 - b], Row(buf[k])[8 - b..]);
  }

  lemma DrawnRest(buf: seq<byte>, k: nat, b: nat, p: seq<bool>, black: bool)
    requires Drawn(buf, k, b, p) && RestIs(buf, k, b, black)
    ensures var n := if b < 8 then k + 1 else k;
      |p| <= 8 * n && Rows(buf[..n]) == p + Same(black, 8 * n - |p|)
  {
    hide Row, Rows, Same;
    if b == 8 {
      DrawnPrefix(buf, k, b, p);
      assert p + Same(black, 0) == p;
    } else {
      assert buf[..k + 1] == buf[..k] + [buf[k]];
      RowsSnoc(buf[..k], buf[k]);
      assert Row(buf[k]) == Row(buf[k])[..8 - b] + Row(buf[k])[8 - b..];
      Assoc(Rows(buf[..k]), Row(buf[k])[..8 - b], Same(black, b));
    }
  }

  // ----- round trip -----

  lemma HalfPower(c: byte, i: nat)
    requires i < 8
    ensures c / Power(i) == 2 * (c / Power(i + 1)) + c / Power(i) % 2
  {
    DropLow(c / Power(i), Power(i), 2, c % Power(i));
    assert Power(i + 1) == 2 * Power(i);
    assert c == c / Power(i) * Power(i) + c % Power(i);
  }

  /** Bytes with the same pixels are the same above weight 2^i. */
  lemma {:induction false} SameAbove(c: byte, d: byte, i: nat)
    requires i <= 8 && Row(c) == Row(d)
    ensures c / Power(i) == d / Power(i)
    decreases 8 - i
  {
    if i < 8 {
      SameAbove(c, d, i + 1);
      assert Row(c)[7 - i] == PixelAt(c, i) && Row(d)[7 - i] == PixelAt(d, i);
      HalfPower(c, i);
      HalfPower(d, i);
    }
  }

  lemma RowTells(c: byte, d: byte)
    requires Row(c) == Row(d)
    ensures c == d
  {
    SameAbove(c, d, 0);
  }

  lemma {:induction false} RowsTell(s: seq<byte>, t: seq<byte>)
    requires Rows(s) == Rows(t)
    ensures s == t
  {
    hide Row;
    if s != [] {
      var n := |s| - 1;
      var a, b := s[..n], t[..n];
      assert s == a + [s[n]] && t == b + [t[n]];
      RowsSnoc(a, s[n]);
      RowsSnoc(b, t[n]);
      assert (Rows(a) + Row(s[n]))[..8 * n] == Rows(a) && (Rows(b) + Row(t[n]))[..8 * n] == Rows(b);
      assert (Rows(a) + Row(s[n]))[8 * n..] == Row(s[n]) && (Rows(b) + Row(t[n]))[8 * n..] == Row(t[n]);
      RowsTell(a, b);
      RowTells(s[n], t[n]);
    }
  }

  /** A line of bytes converted to runs and drawn again comes back unchanged. */
  method RoundTrip(bits: seq<byte>, runs: array<int>, buf: array<byte>) returns (n: nat)
    requires runs.Length > 8 * |bits| && buf.Length > |bits|
    modifies runs, buf
    ensures n == |bits| && buf[..n] == bits
  {
    var nr := BitToRun(bits, runs);
    TightIsProper(runs[..nr]);
    n := RunToBit(runs, nr, buf);
    assert Rows(buf[..n]) == Rows(bits);
    RowsTell(buf[..n], bits);
  }
}
