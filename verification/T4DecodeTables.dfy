/**
 The decoder's lookup tables: what the filling loops of the decoder leave in them, and
 the proof that a table entry identifies the code its window begins with.
 */
module T4DecodeTables {
  import opened Bits
  import opened T4Tables

  /** The five 512-entry tables, named as in the decoder. */
  datatype Table = TW1 | TW2 | TB1 | TB2 | FILL

  /** Table to continue in, bits consumed, and run length + 1 (0: no code yet, -1: EOL). */
  datatype Entry = Entry(next: Table, bits: nat, code: int)

  const SIZE: nat := 512

  function First(c: Colour): Table {
    if c.White? then TW1 else TB1
  }

  function Second(c: Colour): Table {
    if c.White? then TW2 else TB2
  }

  const UNDEFINED := Entry(TW1, 1, 0)

  function Go2(c: Colour): Entry {
    Entry(Second(c), 4, 0)
  }

  const GO_FILL := Entry(FILL, 7, 0)

  /** Colour table used after code i: a make-up code is followed by the same colour. */
  function After(c: Colour, i: nat): Table {
    if i > 63 then First(c) else First(Other(c))
  }

  /** The entry a code of at most 9 bits gets in the first table. */
  function ShortEntry(c: Colour, i: nat): Entry
    requires i < NCODES
  {
    Entry(After(c, i), CodeOf(c, i).bits, RunLength(i) + 1)
  }

  /** The entry a longer code gets in the second table, after 4 bits are gone. */
  function LongEntry(c: Colour, i: nat): Entry
    requires i < NCODES && CodeOf(c, i).bits > 9
  {
    Entry(After(c, i), CodeOf(c, i).bits - 4, RunLength(i) + 1)
  }

  /** tab after storing e at the 2^shift indices that begin with cword. */
  function AddCode(tab: seq<Entry>, cword: nat, shift: nat, e: Entry): (r: seq<Entry>)
    requires shift <= 11
    ensures |r| == |tab|
    ensures forall i :: 0 <= i < |tab| ==>
      r[i] == if Span(cword, shift) <= i < Span(cword + 1, shift) then e else tab[i]
  {
    seq(|tab|, i requires 0 <= i < |tab| =>
      if Span(cword, shift) <= i < Span(cword + 1, shift) then e else tab[i])
  }

  /** The first table of colour c after code i is added. */
  function InstallFirst(c: Colour, i: nat, t1: seq<Entry>): (r: seq<Entry>)
    requires i < NCODES && |t1| == SIZE
    ensures |r| == SIZE
  {
    CodeShape(c, i);
    var p := CodeOf(c, i);
    if p.bits <= 9 then AddCode(t1, p.code, 9 - p.bits, ShortEntry(c, i))
    else AddCode(t1, p.code / Span(1, p.bits - 9), 0, Go2(c))
  }

  /** The second table of colour c after code i is added. */
  function InstallSecond(c: Colour, i: nat, t2: seq<Entry>): (r: seq<Entry>)
    requires i < NCODES && |t2| == SIZE
    ensures |r| == SIZE
  {
    CodeShape(c, i);
    var p := CodeOf(c, i);
    if p.bits <= 9 then t2 else AddCode(t2, p.code, 13 - p.bits, LongEntry(c, i))
  }

  /** The two tables of colour c after its first k codes are added. */
  function Install(c: Colour, k: nat, t1: seq<Entry>, t2: seq<Entry>): (r: (seq<Entry>, seq<Entry>))
    requires k <= NCODES && |t1| == |t2| == SIZE
    ensures |r.0| == |r.1| == SIZE
  {
    if k == 0 then (t1, t2)
    else
      var r := Install(c, k - 1, t1, t2);
      (InstallFirst(c, k - 1, r.0), InstallSecond(c, k - 1, r.1))
  }

  function Blank(): (r: seq<Entry>)
    ensures |r| == SIZE && forall i :: 0 <= i < SIZE ==> r[i] == UNDEFINED
  {
    seq(SIZE, _ => UNDEFINED)
  }

  /** First table before the codes are added: nine zeros go on to the second table. */
  function Base1(c: Colour): (r: seq<Entry>)
    ensures |r| == SIZE
  {
    AddCode(Blank(), 0, 0, Go2(c))
  }

  /** Second table before the codes are added: seven more zeros are FILL. */
  function Base2(): (r: seq<Entry>)
    ensures |r| == SIZE
  {
    AddCode(Blank(), 0, 2, GO_FILL)
  }

  function EolEntry(i: nat): Entry
    requires i <= 9
  {
    Entry(TW1, 9 - i, -1)
  }

  /** The FILL table after the entries for an EOL with at most k - 1 bits to follow. */
  function FillTable(k: nat): (r: seq<Entry>)
    requires k <= 9
    ensures |r| == SIZE
  {
    if k == 0 then AddCode(Blank(), 0, 0, Entry(FILL, 9, 0))
    else AddCode(FillTable(k - 1), 1, k - 1, EolEntry(k - 1))
  }

  /** The five tables together. */
  datatype Tables = Tables(tw1: seq<Entry>, tw2: seq<Entry>, tb1: seq<Entry>, tb2: seq<Entry>, fill: seq<Entry>)
  {
    function Of(t: Table): seq<Entry> {
      match t
      case TW1 => tw1
      case TW2 => tw2
      case TB1 => tb1
      case TB2 => tb2
      case FILL => fill
    }

    predicate Sized() {
      |tw1| == |tw2| == |tb1| == |tb2| == |fill| == SIZE
    }
  }

  /** What the decoder's initialization leaves in the tables. */
  function FilledTables(): (r: Tables)
    ensures r.Sized()
  {
    var w := Install(White, NCODES, Base1(White), Base2());
    var b := Install(Black, NCODES, Base1(Black), Base2());
    Tables(w.0, w.1, b.0, b.1, FillTable(9))
  }

  // ----- what the first k codes have put in the tables -----

  /** The first-table entry of a window that begins with code i. */
  function EntryFor(c: Colour, i: nat): Entry
    requires i < NCODES
  {
    if CodeOf(c, i).bits <= 9 then ShortEntry(c, i) else Go2(c)
  }

  /** Every window that begins with one of the first k codes leads to it from the first table. */
  ghost predicate FirstDecodes(c: Colour, k: nat, t1: seq<Entry>)
    requires k <= NCODES && |t1| == SIZE
  {
    forall i: nat, v: nat {:trigger Covers(c, i, v)} ::
      i < k && v < 8192 && Covers(c, i, v) ==> t1[v / 16] == EntryFor(c, i)
  }

  /** Every window that begins with one of the first k codes, if long, is found in the second. */
  ghost predicate SecondDecodes(c: Colour, k: nat, t2: seq<Entry>)
    requires k <= NCODES && |t2| == SIZE
  {
    forall i: nat, v: nat {:trigger Covers(c, i, v)} ::
      i < k && CodeOf(c, i).bits > 9 && Covers(c, i, v) ==> v < 512 && t2[v] == LongEntry(c, i)
  }

  /** w's first-table entry e is blank, goes on to the second table, or is a short code's. */
  ghost predicate FirstKind(c: Colour, w: nat, e: Entry) {
    || e == UNDEFINED
    || (w < 32 && e == Go2(c))
    || (var i := Owner(c, 16 * w);
        i < NCODES && CodeOf(c, i).bits <= 9 && Covers(c, i, 16 * w) && e == ShortEntry(c, i))
  }

  /** w's second-table entry e is blank or a long code's. */
  ghost predicate SecondKind(c: Colour, w: nat, e: Entry) {
    || e == UNDEFINED
    || (var i := Owner(c, w);
        i < NCODES && CodeOf(c, i).bits > 9 && Covers(c, i, w) && e == LongEntry(c, i))
  }

  /** Nothing else is in the first table, and nine zeros go on to the second. */
  ghost predicate FirstOnly(c: Colour, t1: seq<Entry>)
    requires |t1| == SIZE
  {
    t1[0] == Go2(c) && forall w: nat {:trigger FirstKind(c, w, t1[w])} :: w < SIZE ==> FirstKind(c, w, t1[w])
  }

  /** Nothing else is in the second table, and seven more zeros are FILL. */
  ghost predicate SecondOnly(c: Colour, t2: seq<Entry>)
    requires |t2| == SIZE
  {
    && t2[0] == t2[1] == t2[2] == t2[3] == GO_FILL
    && forall w: nat {:trigger SecondKind(c, w, t2[w])} :: 4 <= w < SIZE ==> SecondKind(c, w, t2[w])
  }

  /** Adding code i to the first table touches exactly the windows it covers. */
  lemma ShortRange(c: Colour, i: nat, w: nat)
    requires i < NCODES && CodeOf(c, i).bits <= 9
    ensures var p := CodeOf(c, i);
      Span(p.code, 9 - p.bits) <= w < Span(p.code + 1, 9 - p.bits) <==> Covers(c, i, 16 * w)
  {
    hide CodeOf;
    CodeShape(c, i);
    SixteenTimes(CodeOf(c, i).code, CodeOf(c, i).bits);
    SixteenTimes(CodeOf(c, i).code + 1, CodeOf(c, i).bits);
  }

  lemma SixteenTimes(x: nat, bits: nat)
    requires 2 <= bits <= 9
    ensures Span(x, 13 - bits) == 16 * Span(x, 9 - bits)
  {
  }

  lemma Aligned(lo: nat, hi: nat, v: nat)
    requires lo % 16 == 0 && hi % 16 == 0
    ensures lo <= v < hi <==> lo <= 16 * (v / 16) < hi
  {
  }

  /** A short code covers a window exactly when it covers all that share its first 9 bits. */
  lemma ShortAligned(c: Colour, i: nat, v: nat)
    requires i < NCODES && CodeOf(c, i).bits <= 9
    ensures Covers(c, i, v) <==> Covers(c, i, 16 * (v / 16))
  {
    hide CodeOf, Span;
    CodeShape(c, i);
    Aligned(Lo(CodeOf(c, i)), Hi(CodeOf(c, i)), v);
  }

  /** Adding a short code leaves another code's entries alone. */
  lemma ShortKeeps(c: Colour, k: nat, i: nat, v: nat)
    requires k < NCODES && i < NCODES && i != k && CodeOf(c, k).bits <= 9 && Covers(c, i, v)
    ensures var p := CodeOf(c, k); !(Span(p.code, 9 - p.bits) <= v / 16 < Span(p.code + 1, 9 - p.bits))
  {
    hide CodeOf, Owner;
    ShortRange(c, k, v / 16);
    ShortAligned(c, k, v);
    PrefixFree(c, i, v);
    if Covers(c, k, v) { PrefixFree(c, k, v); }
  }

  /** Adding a long code leaves a short code's entry alone. */
  lemma LongKeeps(c: Colour, k: nat, i: nat, v: nat)
    requires k < NCODES && i < NCODES && CodeOf(c, k).bits > 9 && CodeOf(c, i).bits <= 9 && Covers(c, i, v)
    ensures var p := CodeOf(c, k); p.bits <= 13 && v / 16 != p.code / Span(1, p.bits - 9)
  {
    hide CodeOf, Owner;
    CodeShape(c, k);
    var lo := Lo(CodeOf(c, k));
    if v / 16 == lo / 16 {
      ShortAligned(c, i, v);
      ShortAligned(c, i, lo);
      PrefixFree(c, i, lo);
      PrefixFree(c, k, lo);
    }
  }

  lemma LongRange(c: Colour, k: nat, v: nat)
    requires k < NCODES && CodeOf(c, k).bits > 9
    ensures var p := CodeOf(c, k);
      p.bits <= 13 && (Span(p.code, 13 - p.bits) <= v < Span(p.code + 1, 13 - p.bits) <==> Covers(c, k, v))
  {
    hide CodeOf, Span;
    CodeShape(c, k);
  }

  /** Adding code k to the first table does not disturb the window of another code. */
  lemma FirstKeeps(c: Colour, k: nat, t1: seq<Entry>, i: nat, v: nat)
    requires k < NCODES && |t1| == SIZE && i < NCODES && i != k && v < 8192 && Covers(c, i, v)
    requires t1[v / 16] == EntryFor(c, i)
    ensures InstallFirst(c, k, t1)[v / 16] == EntryFor(c, i)
  {
    hide CodeOf, Owner, Covers, ShortEntry;
    if CodeOf(c, k).bits <= 9 {
      ShortKeeps(c, k, i, v);
    } else if CodeOf(c, i).bits <= 9 {
      LongKeeps(c, k, i, v);
    }
  }

  lemma FirstInstalled(c: Colour, k: nat, t1: seq<Entry>, v: nat)
    requires k < NCODES && |t1| == SIZE && v < 8192 && Covers(c, k, v)
    ensures InstallFirst(c, k, t1)[v / 16] == EntryFor(c, k)
  {
    hide CodeOf, Owner, ShortEntry;
    if CodeOf(c, k).bits <= 9 {
      ShortRange(c, k, v / 16);
      ShortAligned(c, k, v);
    } else {
      LongBlock(c, k, v);
    }
  }

  lemma LongBlock(c: Colour, k: nat, v: nat)
    requires k < NCODES && CodeOf(c, k).bits > 9 && Covers(c, k, v)
    ensures var p := CodeOf(c, k); p.bits <= 13 && v / 16 == p.code / Span(1, p.bits - 9) && v < 512
  {
    hide CodeOf, Span;
    CodeShape(c, k);
  }

  lemma KeepsFirstDecodes(c: Colour, k: nat, t1: seq<Entry>)
    requires k < NCODES && |t1| == SIZE && FirstDecodes(c, k, t1)
    ensures FirstDecodes(c, k + 1, InstallFirst(c, k, t1))
  {
    hide CodeOf, Owner, InstallFirst, EntryFor;
    forall i: nat, v: nat {:trigger Covers(c, i, v)} | i < k + 1 && v < 8192 && Covers(c, i, v)
      ensures InstallFirst(c, k, t1)[v / 16] == EntryFor(c, i)
    {
      if i < k { FirstKeeps(c, k, t1, i, v); } else { FirstInstalled(c, k, t1, v); }
    }
  }

  lemma KeepsSecondDecodes(c: Colour, k: nat, t2: seq<Entry>)
    requires k < NCODES && |t2| == SIZE && SecondDecodes(c, k, t2)
    ensures SecondDecodes(c, k + 1, InstallSecond(c, k, t2))
  {
    hide CodeOf, Owner, LongEntry;
    forall i: nat, v: nat {:trigger Covers(c, i, v)} | i < k + 1 && CodeOf(c, i).bits > 9 && Covers(c, i, v)
      ensures v < 512 && InstallSecond(c, k, t2)[v] == LongEntry(c, i)
    {
      LongBlock(c, i, v);
      PrefixFree(c, i, v);
      if CodeOf(c, k).bits > 9 {
        LongRange(c, k, v);
        if Covers(c, k, v) { PrefixFree(c, k, v); }
      }
    }
  }

  lemma KeepsFirstKind(c: Colour, k: nat, t1: seq<Entry>, w: nat)
    requires k < NCODES && |t1| == SIZE && w < SIZE && FirstKind(c, w, t1[w])
    ensures FirstKind(c, w, InstallFirst(c, k, t1)[w])
    ensures w == 0 && t1[0] == Go2(c) ==> InstallFirst(c, k, t1)[0] == Go2(c)
  {
    hide CodeOf, Owner;
    CodeShape(c, k);
    if CodeOf(c, k).bits <= 9 {
      ShortRange(c, k, w);
      if Covers(c, k, 16 * w) { PrefixFree(c, k, 16 * w); }
    }
  }

  lemma KeepsFirstOnly(c: Colour, k: nat, t1: seq<Entry>)
    requires k < NCODES && |t1| == SIZE && FirstOnly(c, t1)
    ensures FirstOnly(c, InstallFirst(c, k, t1))
  {
    hide CodeOf, Owner, InstallFirst;
    var r := InstallFirst(c, k, t1);
    forall w: nat {:trigger FirstKind(c, w, r[w])} | w < SIZE
      ensures FirstKind(c, w, r[w])
    {
      assert FirstKind(c, w, t1[w]);
      KeepsFirstKind(c, k, t1, w);
    }
    assert FirstKind(c, 0, t1[0]);
    KeepsFirstKind(c, k, t1, 0);
  }

  lemma KeepsSecondOnly(c: Colour, k: nat, t2: seq<Entry>)
    requires k < NCODES && |t2| == SIZE && SecondOnly(c, t2)
    ensures SecondOnly(c, InstallSecond(c, k, t2))
  {
    hide CodeOf, Owner;
    CodeShape(c, k);
    var r := InstallSecond(c, k, t2);
    forall w: nat {:trigger SecondKind(c, w, r[w])} | 4 <= w < SIZE
      ensures SecondKind(c, w, r[w])
    {
      assert SecondKind(c, w, t2[w]);
      if CodeOf(c, k).bits > 9 && Covers(c, k, w) { PrefixFree(c, k, w); }
    }
  }

  lemma BasesOk(c: Colour)
    ensures FirstDecodes(c, 0, Base1(c)) && SecondDecodes(c, 0, Base2())
    ensures FirstOnly(c, Base1(c)) && SecondOnly(c, Base2())
  {
    hide CodeOf, Owner;
    var t1, t2 := Base1(c), Base2();
    assert forall w: nat :: w < SIZE ==> t1[w] == (if w < 1 then Go2(c) else UNDEFINED);
    assert forall w: nat :: w < SIZE ==> t2[w] == (if w < 4 then GO_FILL else UNDEFINED);
  }

  ghost predicate ColourOk(c: Colour, t1: seq<Entry>, t2: seq<Entry>) {
    && |t1| == |t2| == SIZE
    && FirstDecodes(c, NCODES, t1) && SecondDecodes(c, NCODES, t2)
    && FirstOnly(c, t1) && SecondOnly(c, t2)
  }

  lemma {:induction false} Installed(c: Colour, k: nat)
    requires k <= NCODES
    ensures var r := Install(c, k, Base1(c), Base2());
      FirstDecodes(c, k, r.0) && SecondDecodes(c, k, r.1) && FirstOnly(c, r.0) && SecondOnly(c, r.1)
  {
    hide FirstDecodes, SecondDecodes, FirstOnly, SecondOnly, InstallFirst, InstallSecond, Base1, Base2;
    if k == 0 {
      BasesOk(c);
    } else {
      Installed(c, k - 1);
      var r := Install(c, k - 1, Base1(c), Base2());
      KeepsFirstDecodes(c, k - 1, r.0);
      KeepsSecondDecodes(c, k - 1, r.1);
      KeepsFirstOnly(c, k - 1, r.0);
      KeepsSecondOnly(c, k - 1, r.1);
    }
  }

  lemma {:induction false} FillTableZero(k: nat)
    requires k <= 9
    ensures FillTable(k)[0] == Entry(FILL, 9, 0)
  {
    if k != 0 {
      FillTableZero(k - 1);
      SpanIsShift(1, k - 1);
    }
  }

  lemma SpanMonotone(i: nat, k: nat)
    requires i < k <= 9
    ensures Span(2, i) <= Span(1, k)
  {
  }

  /** The FILL table finds the first one bit and ends the EOL there. */
  lemma {:induction false} FillTableAt(k: nat, w: nat, i: nat)
    requires i < k <= 9 && w < SIZE && Span(1, i) <= w < Span(2, i)
    ensures FillTable(k)[w] == EolEntry(i)
  {
    hide Span;
    if i < k - 1 {
      FillTableAt(k - 1, w, i);
      SpanMonotone(i, k - 1);
    }
  }

  /** The FILL table skips nine zeros, or ends an EOL at the first one bit. */
  ghost predicate FillOk(fill: seq<Entry>)
    requires |fill| == SIZE
  {
    && fill[0] == Entry(FILL, 9, 0)
    && forall i: nat, w: nat {:trigger EolEntry(i), fill[w]} ::
         i <= 8 && w < SIZE && Span(1, i) <= w < Span(2, i) ==> fill[w] == EolEntry(i)
  }

  /** Tables that decode T.4: every code is found from its bits, and nothing else is. */
  ghost predicate GoodTables(tt: Tables) {
    && tt.Sized()
    && ColourOk(White, tt.tw1, tt.tw2)
    && ColourOk(Black, tt.tb1, tt.tb2)
    && FillOk(tt.fill)
  }

  lemma FillTableOk()
    ensures FillOk(FillTable(9))
  {
    hide FillTable;
    FillTableZero(9);
    forall i: nat, w: nat {:trigger EolEntry(i), FillTable(9)[w]} | i <= 8 && w < SIZE && Span(1, i) <= w < Span(2, i)
      ensures FillTable(9)[w] == EolEntry(i)
    {
      FillTableAt(9, w, i);
    }
  }

  /** The tables as the decoder fills them decode T.4. */
  lemma FilledTablesAreGood()
    ensures GoodTables(FilledTables())
  {
    hide Install, FillTable, FirstDecodes, SecondDecodes, FirstOnly, SecondOnly, FillOk;
    Installed(White, NCODES);
    Installed(Black, NCODES);
    FillTableOk();
  }

  function Lookup(tt: Tables, t: Table, w: nat): Entry
    requires tt.Sized() && w < SIZE
  {
    tt.Of(t)[w]
  }

  lemma FillShape(fill: seq<Entry>, w: nat)
    requires |fill| == SIZE && FillOk(fill) && w < SIZE
    ensures var e := fill[w];
      if w == 0 then e == Entry(FILL, 9, 0) else 1 <= e.bits <= 9 && e == Entry(TW1, e.bits, -1)
  {
    if w != 0 {
      var i := HighestOne(w);
      assert fill[w] == EolEntry(i);
    }
  }

  lemma FirstShape(c: Colour, w: nat, e: Entry)
    requires FirstKind(c, w, e)
    ensures 1 <= e.bits <= 9 && 0 <= e.code <= 2561
    ensures e.next == TW1 || e.next == TB1 || e == Go2(c)
  {
    var i := Owner(c, 16 * w);
    if i < NCODES { CodeShape(c, i); }
  }

  lemma SecondShape(c: Colour, w: nat, e: Entry)
    requires SecondKind(c, w, e) || e == GO_FILL
    ensures 1 <= e.bits <= 9 && 0 <= e.code <= 2561
    ensures e.next == TW1 || e.next == TB1 || e == GO_FILL
  {
    var i := Owner(c, w);
    if i < NCODES { CodeShape(c, i); }
  }

  /** What any lookup returns, garbage included: progress, and EOL only from the FILL table. */
  lemma LookupShape(tt: Tables, t: Table, w: nat)
    requires GoodTables(tt) && w < SIZE
    ensures var e := Lookup(tt, t, w);
      && 1 <= e.bits <= 9 && -1 <= e.code <= 2561
      && (e.code == -1 <==> t == FILL && w != 0)
      && (e.code == -1 ==> e.next == TW1)
      && (e.next.TW2? || e.next.TB2? ==> (t.TW1? || t.TB1?) && e.bits == 4)
      && (e.next == FILL ==> (t == FILL && w == 0 && e.bits == 9) || ((t.TW2? || t.TB2?) && e.bits == 7))
  {
    var e := Lookup(tt, t, w);
    match t
    case FILL => FillShape(tt.fill, w);
    case TW1 => FirstShape(White, w, e);
    case TB1 => FirstShape(Black, w, e);
    case TW2 => SecondShape(White, w, e);
    case TB2 => SecondShape(Black, w, e);
  }

  /** The position of the leading one of a nonzero 9-bit window. */
  lemma HighestOne(w: nat) returns (i: nat)
    requires 0 < w < SIZE
    ensures i <= 8 && Span(1, i) <= w < Span(2, i)
  {
    i := if w < 2 then 0 else if w < 4 then 1 else if w < 8 then 2 else if w < 16 then 3
      else if w < 32 then 4 else if w < 64 then 5 else if w < 128 then 6 else if w < 256 then 7 else 8;
  }

  lemma {:induction false} Pow2Mod16(k: nat)
    ensures k >= 4 ==> Pow2(k) % 16 == 0
  {
    if k > 4 {
      Pow2Mod16(k - 1);
    } else {
      Pow2Values();
    }
  }

  lemma OneHot(code: nat, bits: nat, z: nat)
    requires bits <= 13 && z <= 12 && code >= 1 && code % 16 != 0
    requires code * Pow2(13 - bits) <= Pow2(12 - z) < (code + 1) * Pow2(13 - bits)
    ensures z < bits <= z + 4
  {
    var n := 13 - bits;
    if bits <= z {
      Pow2Monotone(13 - z, n);
      MulAtLeast(code, Pow2(n));
    } else {
      var k := bits - 1 - z;
      Pow2Add(k, n);
      MulBetween(code, Pow2(k), Pow2(n));
      Pow2Mod16(k);
    }
  }

  /** A code matching z zeros, a one and more zeros contains the one and at most three zeros after it. */
  lemma OneHotCode(c: Colour, i: nat, z: nat)
    requires i < NCODES && z <= 12 && Covers(c, i, Pow2(12 - z))
    ensures z < CodeOf(c, i).bits <= z + 4
  {
    CodeShape(c, i);
    var p := CodeOf(c, i);
    SpanIsShift(p.code, 13 - p.bits);
    SpanIsShift(p.code + 1, 13 - p.bits);
    OneHot(p.code, p.bits, z);
  }

  lemma MulBetween(a: int, b: int, d: int)
    requires d > 0 && a * d <= b * d < (a + 1) * d
    ensures a == b
  {
    if b < a {
      MulAtLeast(a - b, d);
    } else if b > a {
      MulAtLeast(b - a, d);
    }
  }
}
