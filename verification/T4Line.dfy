/**
 The coded form of a scan line, and the proof that the decoder reads it back: run by run,
 then zero FILL of any length, then EOL.
 */
module T4Line {
  import opened Bits
  import opened T4Tables
  import opened T4DecodeTables
  import opened T4Stream

  const MAXRUNLEN: nat := 2560 + 63

  /** Run lengths the tables cannot code are cut to the longest they can. */
  function Clip(len: nat): (r: nat)
    ensures r <= MAXRUNLEN
  {
    if len > MAXRUNLEN then MAXRUNLEN else len
  }

  function ClipAll(runs: seq<nat>): (r: seq<nat>)
    ensures |r| == |runs| && forall k :: 0 <= k < |r| ==> r[k] == Clip(runs[k])
  {
    seq(|runs|, k requires 0 <= k < |runs| => Clip(runs[k]))
  }

  function CodeBits(c: Colour, i: nat): seq<bit>
    requires i < NCODES
  {
    ToBits(CodeOf(c, i).code, CodeOf(c, i).bits)
  }

  /** A run: a make-up code if it is longer than 63, then a terminating code. */
  function RunBits(c: Colour, len: nat): seq<bit>
    requires len <= MAXRUNLEN
  {
    (if len > 63 then CodeBits(c, 63 + len / 64) else []) + CodeBits(c, len % 64)
  }

  /** Runs of alternating colour, the first of colour c. */
  function LineBits(c: Colour, runs: seq<nat>): seq<bit>
    decreases |runs|
  {
    if runs == [] then [] else RunBits(c, Clip(runs[0])) + LineBits(Other(c), runs[1..])
  }

  /** EOL preceded by k FILL bits. */
  function EolBits(k: nat): (s: seq<bit>)
    ensures |s| == k + 12
  {
    Zeros(k + 11) + [1]
  }

  /** The identifiers the decoder produces for a run, and for a line. */
  function RunCodes(len: nat): seq<int> {
    (if len > 63 then [64 * (len / 64) + 1] else []) + [len % 64 + 1]
  }

  function LineCodes(runs: seq<nat>): seq<int> {
    if runs == [] then [] else RunCodes(Clip(runs[0])) + LineCodes(runs[1..])
  }

  /** The stream has the bits s at position pos. */
  ghost predicate BitsAt(file: seq<byte>, pos: nat, s: seq<bit>) {
    forall i {:trigger StreamBit(file, i)} :: pos <= i < pos + |s| ==> StreamBit(file, i) == s[i - pos]
  }

  lemma BitsAtSplit(file: seq<byte>, pos: nat, a: seq<bit>, b: seq<bit>)
    requires BitsAt(file, pos, a + b)
    ensures BitsAt(file, pos, a) && BitsAt(file, pos + |a|, b)
  {
    forall i {:trigger StreamBit(file, i)} | pos <= i < pos + |a|
      ensures StreamBit(file, i) == a[i - pos]
    {
      assert (a + b)[i - pos] == a[i - pos];
    }
    forall i {:trigger StreamBit(file, i)} | pos + |a| <= i < pos + |a| + |b|
      ensures StreamBit(file, i) == b[i - pos - |a|]
    {
      assert (a + b)[i - pos] == b[i - pos - |a|];
    }
  }

  lemma {:induction false} WindowVal(file: seq<byte>, pos: nat, s: seq<bit>)
    requires BitsAt(file, pos, s)
    ensures Window(file, pos, |s|) == Val(s)
  {
    if s != [] {
      var t := s[..|s| - 1];
      assert BitsAt(file, pos, t) by { BitsAtSplit(file, pos, t, s[|s| - 1..]); assert s == t + s[|s| - 1..]; }
      WindowVal(file, pos, t);
      assert StreamBit(file, pos + |t|) == s[|s| - 1];
    }
  }

  lemma CodeFits(code: nat, bits: nat, n: nat)
    requires (code + 1) * Pow2(n) <= Pow2(bits + n)
    ensures code < Pow2(bits)
  {
    Pow2Add(bits, n);
    if code >= Pow2(bits) {
      MulAtLeast(code + 1 - Pow2(bits), Pow2(n));
    }
  }

  lemma ModSmall(a: nat, d: nat)
    requires a < d
    ensures a % d == a
  {
  }

  lemma Between(q: nat, d: nat, r: nat)
    requires r < d
    ensures q * d <= q * d + r < (q + 1) * d
  {
  }

  lemma CodePrefix(file: seq<byte>, pos: nat, code: nat, bits: nat, n: nat)
    requires BitsAt(file, pos, ToBits(code, bits)) && code < Pow2(bits)
    ensures code * Pow2(n) <= Window(file, pos, bits + n) < (code + 1) * Pow2(n)
  {
    assert Window(file, pos, bits) == code by {
      WindowVal(file, pos, ToBits(code, bits));
      ValToBits(code, bits);
      ModSmall(code, Pow2(bits));
    }
    WindowSplit(file, pos, bits, n);
    Between(code, Pow2(n), Window(file, pos + bits, n));
  }

  lemma CodeInterval(file: seq<byte>, pos: nat, p: T4Code)
    requires Shape(p) && BitsAt(file, pos, ToBits(p.code, p.bits))
    ensures Lo(p) <= Window(file, pos, 13) < Hi(p)
  {
    hide Pow2, ToBits, Window;
    var n := 13 - p.bits;
    assert p.code < Pow2(p.bits) by {
      SpanIsShift(p.code + 1, n);
      assert Pow2(p.bits + n) == 8192 by { Pow2Values(); }
      CodeFits(p.code, p.bits, n);
    }
    SpanIsShift(p.code, n);
    SpanIsShift(p.code + 1, n);
    CodePrefix(file, pos, p.code, p.bits, n);
  }

  /** A 13-bit window that begins with a code's bits lies in the code's interval. */
  lemma CodeWindow(file: seq<byte>, pos: nat, c: Colour, i: nat)
    requires i < NCODES && BitsAt(file, pos, CodeBits(c, i))
    ensures Covers(c, i, Window(file, pos, 13))
  {
    CodeShape(c, i);
    CodeInterval(file, pos, CodeOf(c, i));
  }

  /** The entries a code is found through. */
  lemma CodeLookup(tt: Tables, c: Colour, i: nat, v: nat)
    requires GoodTables(tt) && i < NCODES && v < 8192 && Covers(c, i, v)
    ensures CodeOf(c, i).bits <= 9 ==> Lookup(tt, First(c), v / 16) == ShortEntry(c, i)
    ensures CodeOf(c, i).bits > 9 ==>
      v < 512 && Lookup(tt, First(c), v / 16) == Go2(c) && Lookup(tt, Second(c), v) == LongEntry(c, i)
  {
  }

  lemma TwoLookups(tt: Tables, file: seq<byte>, pos: nat, t: Table, second: Table, e: Entry)
    requires GoodTables(tt) && e.code != -1
    requires Lookup(tt, t, Window9(file, pos)) == Entry(second, 4, 0)
    requires Lookup(tt, second, Window9(file, pos + 4)) == e
    ensures Decode(tt, file, t, pos) == Prefixed(e.code, Decode(tt, file, e.next, pos + 4 + e.bits))
  {
    hide ColourOk, FillOk, Decode;
    DecodeVia(tt, file, t, pos, Entry(second, 4, 0));
    DecodeVia(tt, file, second, pos + 4, e);
  }

  lemma OneOrTwoLookups(tt: Tables, file: seq<byte>, pos: nat, t: Table, second: Table, after: Table, bits: nat,
                        id: int)
    requires GoodTables(tt) && id >= 1
    requires bits <= 9 ==> Lookup(tt, t, Window9(file, pos)) == Entry(after, bits, id)
    requires bits > 9 ==> Lookup(tt, t, Window9(file, pos)) == Entry(second, 4, 0)
    requires bits > 9 ==> Lookup(tt, second, Window9(file, pos + 4)) == Entry(after, bits - 4, id)
    ensures Decode(tt, file, t, pos) == Prefixed(id, Decode(tt, file, after, pos + bits))
  {
    hide ColourOk, FillOk, Decode;
    if bits <= 9 {
      DecodeVia(tt, file, t, pos, Entry(after, bits, id));
    } else {
      TwoLookups(tt, file, pos, t, second, Entry(after, bits - 4, id));
    }
  }

  /** A code's bits lead through the entries that were filled in for it. */
  lemma CodeEntries(tt: Tables, file: seq<byte>, pos: nat, c: Colour, i: nat)
    requires GoodTables(tt) && i < NCODES && BitsAt(file, pos, CodeBits(c, i))
    ensures CodeOf(c, i).bits <= 9 ==> Lookup(tt, First(c), Window9(file, pos)) == ShortEntry(c, i)
    ensures CodeOf(c, i).bits > 9 ==> Lookup(tt, First(c), Window9(file, pos)) == Go2(c)
    ensures CodeOf(c, i).bits > 9 ==> Lookup(tt, Second(c), Window9(file, pos + 4)) == LongEntry(c, i)
  {
    CodeWindow(file, pos, c, i);
    assert Pow2(13) == 8192 by { Pow2Values(); }
    CodeLookup(tt, c, i, Window(file, pos, 13));
    FirstNine(file, pos);
    LastNine(file, pos);
  }

  /** The decoder finds a code from its bits, whatever follows them. */
  lemma CodeDecodes(tt: Tables, file: seq<byte>, pos: nat, c: Colour, i: nat)
    requires GoodTables(tt) && i < NCODES && BitsAt(file, pos, CodeBits(c, i))
    ensures Decode(tt, file, First(c), pos)
         == Prefixed(RunLength(i) + 1, Decode(tt, file, After(c, i), pos + CodeOf(c, i).bits))
  {
    hide CodeOf, GoodTables, Decode;
    CodeEntries(tt, file, pos, c, i);
    var bits, id, after := CodeOf(c, i).bits, RunLength(i) + 1, After(c, i);
    OneOrTwoLookups(tt, file, pos, First(c), Second(c), after, bits, id);
  }

  lemma FirstNine(file: seq<byte>, pos: nat)
    ensures Window9(file, pos) == Window(file, pos, 13) / 16
  {
    WindowSplit(file, pos, 9, 4);
    Pow2Values();
    assert Window(file, pos + 9, 4) < 16;
  }

  lemma LastNine(file: seq<byte>, pos: nat)
    ensures Window(file, pos, 13) < 512 ==> Window9(file, pos + 4) == Window(file, pos, 13)
  {
    WindowSplit(file, pos, 4, 9);
    Pow2Values();
    assert Window(file, pos + 4, 9) < 512;
  }

  lemma FillEntries(tt: Tables, w: nat)
    requires GoodTables(tt) && w < SIZE
    ensures w == 0 ==> Lookup(tt, FILL, w) == Entry(FILL, 9, 0)
    ensures forall i: nat :: i <= 8 && Span(1, i) <= w < Span(2, i) ==> Lookup(tt, FILL, w) == EolEntry(i)
  {
    hide ColourOk, Span;
    forall i: nat | i <= 8 && Span(1, i) <= w < Span(2, i) ensures Lookup(tt, FILL, w) == EolEntry(i) {}
  }

  lemma OneEntry(tt: Tables, file: seq<byte>, pos: nat, z: nat)
    requires GoodTables(tt) && z <= 8 && BitsAt(file, pos, Zeros(z) + [1])
    ensures Lookup(tt, FILL, Window9(file, pos)) == EolEntry(8 - z)
  {
    hide ColourOk, FillOk, Span;
    BitsAtSplit(file, pos, Zeros(z), [1]);
    LeadingOne(file, pos, z);
    SpanIsShift(1, 8 - z);
    SpanIsShift(2, 8 - z);
    FillEntries(tt, Window9(file, pos));
  }

  /** FILL and EOL from the FILL table: z zeros and a one. */
  lemma {:induction false} FillDecodes(tt: Tables, file: seq<byte>, pos: nat, z: nat)
    requires GoodTables(tt) && BitsAt(file, pos, Zeros(z) + [1])
    ensures var r := Decode(tt, file, FILL, pos); r == Line([-1], pos + z + 1, r.last)
    decreases z
  {
    hide ColourOk, FillOk, Decode, Span;
    if z >= 9 {
      BitsAtSplit(file, pos, Zeros(z), [1]);
      ZeroWindow(file, pos, z, 9);
      assert Zeros(z) + [1] == Zeros(9) + (Zeros(z - 9) + [1]);
      BitsAtSplit(file, pos, Zeros(9), Zeros(z - 9) + [1]);
      FillEntries(tt, 0);
      FillDecodes(tt, file, pos + 9, z - 9);
      DecodeVia(tt, file, FILL, pos, Entry(FILL, 9, 0));
    } else {
      OneEntry(tt, file, pos, z);
      DecodeEol(tt, file, FILL, pos, EolEntry(8 - z));
    }
  }

  lemma {:induction false} ZeroWindow(file: seq<byte>, pos: nat, z: nat, n: nat)
    requires BitsAt(file, pos, Zeros(z)) && n <= z
    ensures Window(file, pos, n) == 0
  {
    if n != 0 {
      ZeroWindow(file, pos, z, n - 1);
      assert StreamBit(file, pos + n - 1) == 0;
    }
  }

  lemma OneThen(file: seq<byte>, pos: nat, n: nat, m: nat)
    requires Window(file, pos, n) == 1
    ensures Pow2(m) <= Window(file, pos, n + m) < Pow2(m + 1)
  {
    WindowSplit(file, pos, n, m);
  }

  lemma LeadingOne(file: seq<byte>, pos: nat, z: nat)
    requires z <= 8 && BitsAt(file, pos, Zeros(z)) && StreamBit(file, pos + z) == 1
    ensures Pow2(8 - z) <= Window9(file, pos) < Pow2(9 - z)
  {
    ZeroWindow(file, pos, z, z);
    OneThen(file, pos, z + 1, 8 - z);
  }

  lemma ZeroEntries(tt: Tables, c: Colour, w: nat)
    requires GoodTables(tt) && w < 4
    ensures Lookup(tt, First(c), 0) == Go2(c) && Lookup(tt, Second(c), w) == GO_FILL
  {
  }

  /** Eleven or more zeros and a one, from either colour's first table, end the line. */
  lemma EolDecodes(tt: Tables, file: seq<byte>, pos: nat, c: Colour, k: nat)
    requires GoodTables(tt) && BitsAt(file, pos, EolBits(k))
    ensures var r := Decode(tt, file, First(c), pos); r == Line([-1], pos + k + 12, r.last)
  {
    hide CodeOf, Decode, GoodTables;
    var z := k + 11;
    BitsAtSplit(file, pos, Zeros(z), [1]);
    ZeroWindow(file, pos, z, 9);
    SevenZeros(file, pos, z);
    ZeroEntries(tt, c, Window9(file, pos + 4));
    DecodeVia(tt, file, First(c), pos, Go2(c));
    DecodeVia(tt, file, Second(c), pos + 4, GO_FILL);
    assert Zeros(z) + [1] == Zeros(11) + (Zeros(k) + [1]);
    BitsAtSplit(file, pos, Zeros(11), Zeros(k) + [1]);
    FillDecodes(tt, file, pos + 11, k);
  }

  lemma SevenZeros(file: seq<byte>, pos: nat, z: nat)
    requires z >= 11 && BitsAt(file, pos, Zeros(z))
    ensures Window9(file, pos + 4) < 4
  {
    ZeroWindow(file, pos, z, 11);
    WindowSplit(file, pos, 4, 7);
    WindowSplit(file, pos + 4, 7, 2);
    Pow2Values();
  }

  // ----- whole lines -----

  /** r with the identifiers ids before it. */
  function Preceded(ids: seq<int>, r: Line): Line {
    Line(ids + r.codes, r.end, r.last)
  }

  lemma PrefixedTwice(a: int, b: int, r: Line)
    requires a != 0 && b != 0
    ensures Prefixed(a, Prefixed(b, r)) == Preceded([a] + [b], r)
  {
    assert [a] + ([b] + r.codes) == [a] + [b] + r.codes;
  }

  lemma RunDecodes(tt: Tables, file: seq<byte>, pos: nat, c: Colour, len: nat)
    requires GoodTables(tt) && len <= MAXRUNLEN && BitsAt(file, pos, RunBits(c, len))
    ensures Decode(tt, file, First(c), pos)
         == Preceded(RunCodes(len), Decode(tt, file, First(Other(c)), pos + |RunBits(c, len)|))
  {
    hide CodeOf, Decode, GoodTables;
    var i := len % 64;
    var r := Decode(tt, file, First(Other(c)), pos + |RunBits(c, len)|);
    if len > 63 {
      var m := 63 + len / 64;
      BitsAtSplit(file, pos, CodeBits(c, m), CodeBits(c, i));
      CodeDecodes(tt, file, pos, c, m);
      CodeDecodes(tt, file, pos + |CodeBits(c, m)|, c, i);
      PrefixedTwice(64 * (len / 64) + 1, i + 1, r);
    } else {
      assert [] + CodeBits(c, i) == CodeBits(c, i);
      CodeDecodes(tt, file, pos, c, i);
    }
  }

  lemma PrecededTwice(a: seq<int>, b: seq<int>, r: Line, end: nat)
    requires r == Line(b + [-1], end, r.last)
    ensures Preceded(a, r) == Line(a + b + [-1], end, r.last)
  {
    assert a + (b + [-1]) == a + b + [-1];
  }

  /** A coded line, k FILL bits and EOL decode to the identifiers of its runs. */
  lemma {:induction false} LineDecodes(tt: Tables, file: seq<byte>, pos: nat, c: Colour, runs: seq<nat>, k: nat)
    requires GoodTables(tt) && BitsAt(file, pos, LineBits(c, runs) + EolBits(k))
    ensures var r := Decode(tt, file, First(c), pos);
      r == Line(LineCodes(runs) + [-1], pos + |LineBits(c, runs) + EolBits(k)|, r.last)
    decreases |runs|
  {
    hide CodeOf, Decode, RunBits, RunCodes, GoodTables;
    if runs == [] {
      assert LineBits(c, runs) + EolBits(k) == EolBits(k);
      EolDecodes(tt, file, pos, c, k);
      assert LineCodes(runs) + [-1] == [-1];
    } else {
      var a := RunBits(c, Clip(runs[0]));
      var b := LineBits(Other(c), runs[1..]) + EolBits(k);
      assert LineBits(c, runs) + EolBits(k) == a + b;
      BitsAtSplit(file, pos, a, b);
      RunDecodes(tt, file, pos, c, Clip(runs[0]));
      LineDecodes(tt, file, pos + |a|, Other(c), runs[1..], k);
      PrecededTwice(RunCodes(Clip(runs[0])), LineCodes(runs[1..]), Decode(tt, file, First(Other(c)), pos + |a|),
                    pos + |a + b|);
    }
  }
}
