/**
 Decoding as a function of the bit stream: the bits of a file followed, for ever, by the
 15-bit EOL pad the reader supplies at end of file. The decoder is a table and a bit
 position; decoding a line ends at the first EOL.
 */
module T4Stream {
  import opened Bits
  import opened T4Tables
  import opened T4DecodeTables

  /** Bit i of the stream: the file, then 14 zeros and a one, repeated. */
  function StreamBit(file: seq<byte>, i: nat): bit {
    if i < 8 * |file| then BytesToBits(file)[i]
    else if (i - 8 * |file|) % 15 == 14 then 1 else 0
  }

  /** The n stream bits from position pos, as a number. */
  function Window(file: seq<byte>, pos: nat, n: nat): (v: nat)
    ensures v < Pow2(n)
  {
    if n == 0 then 0 else 2 * Window(file, pos, n - 1) + StreamBit(file, pos + n - 1)
  }

  function Window9(file: seq<byte>, pos: nat): (v: nat)
    ensures v < SIZE
  {
    Pow2Values();
    Window(file, pos, 9)
  }

  lemma {:induction false} WindowSplit(file: seq<byte>, pos: nat, n: nat, m: nat)
    ensures Window(file, pos, n + m) == Window(file, pos, n) * Pow2(m) + Window(file, pos + n, m)
  {
    if m != 0 {
      WindowSplit(file, pos, n, m - 1);
      Doubled(Window(file, pos, n), Pow2(m - 1));
      assert Window(file, pos, n + m) == 2 * Window(file, pos, n + (m - 1)) + StreamBit(file, pos + n + m - 1);
    }
  }

  // ----- the pad -----

  /** Zeros before the next one bit, once the file is exhausted. */
  function ZerosAhead(file: seq<byte>, pos: nat): (z: nat)
    requires pos >= 8 * |file|
    ensures z <= 14
  {
    14 - (pos - 8 * |file|) % 15
  }

  lemma {:induction false} OneHotWindow(file: seq<byte>, pos: nat, n: nat, z: nat)
    requires forall i {:trigger StreamBit(file, i)} :: pos <= i < pos + n ==>
      StreamBit(file, i) == if i == pos + z then 1 else 0
    ensures Window(file, pos, n) == if z < n then Pow2(n - 1 - z) else 0
  {
    if n != 0 {
      OneHotWindow(file, pos, n - 1, z);
      if z < n - 1 {
        assert Pow2(n - 1 - z) == 2 * Pow2(n - 2 - z);
      }
    }
  }

  /** The 9-bit window at z pad zeros before the one bit. */
  function OneHotAt(z: nat): (w: nat)
    ensures w < SIZE
  {
    Pow2Values();
    if z < 9 then Pow2(8 - z) else 0
  }

  lemma PadWindow(file: seq<byte>, pos: nat)
    requires pos >= 8 * |file|
    ensures Window9(file, pos) == OneHotAt(ZerosAhead(file, pos))
  {
    var z := ZerosAhead(file, pos);
    forall i {:trigger StreamBit(file, i)} | pos <= i < pos + 9
      ensures StreamBit(file, i) == if i == pos + z then 1 else 0
    {
      PadBit(pos - 8 * |file|, i - pos);
    }
    OneHotWindow(file, pos, 9, z);
  }

  lemma PadBit(d: nat, k: nat)
    requires k < 9
    ensures (d + k) % 15 == 14 <==> k == 14 - d % 15
  {
    var q, r := d / 15, d % 15;
    assert d == 15 * q + r;
    if r + k < 15 {
      DivModUnique(d + k, 15, q, r + k);
    } else {
      DivModUnique(d + k, 15, q + 1, r + k - 15);
    }
  }

  /** Zeros before the next one after b bits of a pad that has z zeros before its one. */
  function ZerosAfter(z: nat, b: nat): int {
    if b <= z then z - b else 14 - (b - z - 1)
  }

  lemma PadAdvance(file: seq<byte>, pos: nat, b: nat)
    requires pos >= 8 * |file| && b <= 9
    ensures ZerosAhead(file, pos + b) == ZerosAfter(ZerosAhead(file, pos), b)
  {
    var d := pos - 8 * |file|;
    var q, r := d / 15, d % 15;
    if r + b < 15 {
      DivModUnique(d + b, 15, q, r + b);
    } else {
      DivModUnique(d + b, 15, q + 1, r + b - 15);
    }
  }

  /** Bound on the lookups left before an EOL, from table t with z pad zeros before the next one. */
  function PadRank(t: Table, z: nat): (r: nat)
    requires z <= 14
    ensures r <= 31
  {
    match t
    case FILL => if z >= 9 then 1 else 0
    case TW2 | TB2 => if z >= 7 then 2 else 10 + 2 * z
    case TW1 | TB1 => if z >= 11 then 3 else 11 + 2 * z
  }

  /** With enough zeros ahead the next one bit ends an EOL. */
  predicate SureEol(t: Table, z: nat) {
    match t
    case FILL => true
    case TW2 | TB2 => z >= 7
    case TW1 | TB1 => z >= 11
  }

  /** One lookup in the pad: an EOL, or progress; and past a one bit the next EOL is certain. */
  predicate PadStepOk(t: Table, z: nat, e: Entry)
    requires z <= 14
  {
    var z' := ZerosAfter(z, e.bits);
    && (e.code == -1 ==> e.bits == z + 1)
    && (e.code != -1 ==> 0 <= z' <= 14 && PadRank(e.next, z') < PadRank(t, z))
    && (e.code != -1 && SureEol(t, z) ==> e.bits <= z && SureEol(e.next, z'))
    && (e.code != -1 && e.bits > z ==> SureEol(e.next, z'))
  }

  lemma PadStepFill(fill: seq<Entry>, z: nat)
    requires |fill| == SIZE && FillOk(fill) && z <= 14
    ensures PadStepOk(FILL, z, fill[OneHotAt(z)])
  {
    if z < 9 {
      SpanIsShift(1, 8 - z);
      SpanIsShift(2, 8 - z);
      assert EolEntry(8 - z) == fill[OneHotAt(z)];
    }
  }

  lemma PadStepFirst(c: Colour, z: nat, e: Entry)
    requires z <= 14 && FirstKind(c, OneHotAt(z), e) && (z >= 9 ==> e == Go2(c))
    ensures PadStepOk(First(c), z, e)
  {
    var i := Owner(c, 16 * OneHotAt(z));
    OneHotSmall(z);
    if z < 9 {
      FirstOneHot(c, i, z);
    }
  }

  lemma FirstOneHot(c: Colour, i: nat, z: nat)
    requires z < 9
    ensures i < NCODES && Covers(c, i, 16 * OneHotAt(z)) ==> z < CodeOf(c, i).bits <= z + 4
  {
    if i < NCODES && Covers(c, i, 16 * OneHotAt(z)) {
      assert Pow2(10 - z) == 4 * Pow2(8 - z);
      assert Pow2(12 - z) == 4 * Pow2(10 - z);
      OneHotCode(c, i, z);
    }
  }

  lemma PadStepSecond(c: Colour, z: nat, e: Entry)
    requires z <= 14
    requires if z >= 7 then e == GO_FILL else SecondKind(c, OneHotAt(z), e)
    ensures PadStepOk(Second(c), z, e)
  {
    if z < 7 {
      var i := Owner(c, OneHotAt(z));
      if i < NCODES && Covers(c, i, OneHotAt(z)) {
        OneHotCode(c, i, z + 4);
      }
    }
  }

  lemma OneHotSmall(z: nat)
    ensures OneHotAt(z) < 32 <==> z >= 4
    ensures OneHotAt(z) < 4 <==> z >= 7
    ensures OneHotAt(z) == 0 <==> z >= 9
  {
    Pow2Values();
  }

  lemma PadStep(tt: Tables, t: Table, z: nat)
    requires GoodTables(tt) && z <= 14
    ensures PadStepOk(t, z, Lookup(tt, t, OneHotAt(z)))
  {
    var e := Lookup(tt, t, OneHotAt(z));
    OneHotSmall(z);
    match t
    case FILL => PadStepFill(tt.fill, z);
    case TW1 => PadStepFirst(White, z, e);
    case TB1 => PadStepFirst(Black, z, e);
    case TW2 =>
      assert z < 7 ==> SecondKind(White, OneHotAt(z), e);
      PadStepSecond(White, z, e);
    case TB2 =>
      assert z < 7 ==> SecondKind(Black, OneHotAt(z), e);
      PadStepSecond(Black, z, e);
  }

  // ----- decoding one line -----

  /** The code identifiers up to and including the EOL's -1, the bit position after the EOL,
      and the position of the last lookup. */
  datatype Line = Line(codes: seq<int>, end: nat, last: nat)

  /** r with code identifier id before it; 0 is no code. */
  function Prefixed(id: int, r: Line): Line {
    if id == 0 then r else Line([id] + r.codes, r.end, r.last)
  }

  /** Bound on the lookups still to be made before an EOL. */
  function Left(file: seq<byte>, t: Table, pos: nat): nat {
    if pos < 8 * |file| then 8 * |file| - pos + 40 else PadRank(t, ZerosAhead(file, pos))
  }

  /** Every lookup consumes at least one bit and brings an EOL nearer, on any stream. */
  lemma LookupProgress(tt: Tables, file: seq<byte>, t: Table, pos: nat)
    requires GoodTables(tt)
    ensures var e := Lookup(tt, t, Window9(file, pos));
      && 1 <= e.bits <= 9
      && (e.code != -1 ==> Left(file, e.next, pos + e.bits) < Left(file, t, pos))
  {
    var e := Lookup(tt, t, Window9(file, pos));
    LookupShape(tt, t, Window9(file, pos));
    if pos >= 8 * |file| {
      PadWindow(file, pos);
      PadAdvance(file, pos, e.bits);
      PadStep(tt, t, ZerosAhead(file, pos));
    }
  }

  /** Bits that must still be looked past before the lookup that finds an EOL. */
  function EolDistance(t: Table): nat {
    match t
    case FILL => 0
    case TW2 | TB2 => 7
    case TW1 | TB1 => 11
  }

  /** The line that begins at bit pos in table t: defined for every byte string. */
  ghost function Decode(tt: Tables, file: seq<byte>, t: Table, pos: nat): (r: Line)
    requires GoodTables(tt)
    ensures pos + EolDistance(t) <= r.last < r.end <= r.last + 9
    decreases Left(file, t, pos)
  {
    var e := Lookup(tt, t, Window9(file, pos));
    LookupShape(tt, t, Window9(file, pos));
    LookupProgress(tt, file, t, pos);
    if e.code == -1 then Line([-1], pos + e.bits, pos)
    else Prefixed(e.code, Decode(tt, file, e.next, pos + e.bits))
  }

  /** One lookup that does not end the line. */
  lemma DecodeVia(tt: Tables, file: seq<byte>, t: Table, pos: nat, e: Entry)
    requires GoodTables(tt) && e == Lookup(tt, t, Window9(file, pos)) && e.code != -1
    ensures Decode(tt, file, t, pos) == Prefixed(e.code, Decode(tt, file, e.next, pos + e.bits))
  {
  }

  /** The lookup that ends the line. */
  lemma DecodeEol(tt: Tables, file: seq<byte>, t: Table, pos: nat, e: Entry)
    requires GoodTables(tt) && e == Lookup(tt, t, Window9(file, pos)) && e.code == -1
    ensures Decode(tt, file, t, pos) == Line([-1], pos + e.bits, pos) && e.next == TW1
  {
    LookupShape(tt, t, Window9(file, pos));
  }

  /** A decoded line is code identifiers, then the EOL's -1. */
  lemma {:induction false} DecodedCodes(tt: Tables, file: seq<byte>, t: Table, pos: nat)
    requires GoodTables(tt)
    ensures var cs := Decode(tt, file, t, pos).codes;
      && |cs| >= 1 && cs[|cs| - 1] == -1
      && forall k :: 0 <= k < |cs| - 1 ==> 1 <= cs[k] <= 2561
    decreases Left(file, t, pos)
  {
    hide ColourOk, FillOk, Decode, Left, Window9;
    var e := Lookup(tt, t, Window9(file, pos));
    LookupShape(tt, t, Window9(file, pos));
    if e.code == -1 {
      DecodeEol(tt, file, t, pos, e);
    } else {
      LookupProgress(tt, file, t, pos);
      DecodedCodes(tt, file, e.next, pos + e.bits);
      DecodeVia(tt, file, t, pos, e);
    }
  }

  /** What an EOL found at bit `end` means when the pad's next one bit is just before `one`. */
  predicate EndsAt(t: Table, z: nat, one: nat, end: nat) {
    end == one || (!SureEol(t, z) && end == one + 15)
  }

  lemma EndsAtStep(t: Table, z: nat, pos: nat, e: Entry, end: nat)
    requires z <= 14 && PadStepOk(t, z, e) && e.code != -1
    requires var z' := ZerosAfter(z, e.bits); EndsAt(e.next, z', pos + e.bits + z' + 1, end)
    ensures EndsAt(t, z, pos + z + 1, end)
  {
  }

  /** In the pad the EOL ends at the next one bit or, at worst, at the one after it. */
  lemma {:induction false} PadEol(tt: Tables, file: seq<byte>, t: Table, pos: nat)
    requires GoodTables(tt) && pos >= 8 * |file|
    ensures var z := ZerosAhead(file, pos);
      EndsAt(t, z, pos + z + 1, Decode(tt, file, t, pos).end)
    decreases Left(file, t, pos)
  {
    hide ColourOk, FillOk, Decode, Left, Window9, PadRank;
    var z := ZerosAhead(file, pos);
    var e := Lookup(tt, t, Window9(file, pos));
    assert PadStepOk(t, z, e) by {
      PadWindow(file, pos);
      PadStep(tt, t, z);
    }
    LookupProgress(tt, file, t, pos);
    if e.code == -1 {
      DecodeEol(tt, file, t, pos, e);
    } else {
      DecodeVia(tt, file, t, pos, e);
      PadEol(tt, file, e.next, pos + e.bits);
      PadAdvance(file, pos, e.bits);
      EndsAtStep(t, z, pos, e, Decode(tt, file, t, pos).end);
    }
  }

  /** One step of Decode, as far as its end is concerned. */
  lemma NextEnd(tt: Tables, file: seq<byte>, t: Table, pos: nat) returns (t': Table, next: nat, eol: bool)
    requires GoodTables(tt)
    ensures pos < next <= pos + 9
    ensures Decode(tt, file, t, pos).end == if eol then next else Decode(tt, file, t', next).end
  {
    hide ColourOk, FillOk, Decode, Window9;
    var e := Lookup(tt, t, Window9(file, pos));
    LookupShape(tt, t, Window9(file, pos));
    t', next, eol := e.next, pos + e.bits, e.code == -1;
    if eol { DecodeEol(tt, file, t, pos, e); } else { DecodeVia(tt, file, t, pos, e); }
  }

  lemma EolAfterCrossing(tt: Tables, file: seq<byte>, t: Table, pos: nat)
    requires GoodTables(tt) && 8 * |file| <= pos <= 8 * |file| + 8
    ensures Decode(tt, file, t, pos).end <= 8 * |file| + 30
  {
    PadEol(tt, file, t, pos);
  }

  lemma {:induction false} EolNearEnd(tt: Tables, file: seq<byte>, t: Table, pos: nat)
    requires GoodTables(tt) && pos < 8 * |file|
    ensures Decode(tt, file, t, pos).end <= 8 * |file| + 30
    decreases 8 * |file| - pos
  {
    var t', next, eol := NextEnd(tt, file, t, pos);
    if !eol {
      if next < 8 * |file| {
        EolNearEnd(tt, file, t', next);
      } else {
        EolAfterCrossing(tt, file, t', next);
      }
    }
  }

  /** However garbled the file, the EOL is found within two pads of its end. */
  lemma EolForced(tt: Tables, file: seq<byte>, t: Table, pos: nat)
    requires GoodTables(tt)
    ensures Decode(tt, file, t, pos).end <= (if pos < 8 * |file| then 8 * |file| else pos) + 30
  {
    if pos < 8 * |file| {
      EolNearEnd(tt, file, t, pos);
    } else {
      PadEol(tt, file, t, pos);
    }
  }
}
