/**
 The T.4 reader: filling of the lookup tables and reading of one scan line's runs, as the
 decoder does them in place, refining the stream decoding of T4Stream.
 */
module T4Reader {
  import opened Bits
  import opened T4Tables
  import opened T4DecodeTables
  import opened T4Stream

  const MAXRUNS: nat := 8192
  const RTCEOL: nat := 5
  const WORD: nat := 0x1_0000_0000

  /** The C type short: sixteen bits, two's complement. */
  function Wrap16(v: int): (r: int)
    ensures -32768 <= r < 32768
  {
    (v + 32768) % 65536 - 32768
  }

  /** Make-up and terminating identifiers combined, and the offset of 1 removed. */
  function Combine(s: seq<int>): (r: seq<int>)
    ensures |r| <= |s|
  {
    if s == [] then []
    else if s[0] > 64 && |s| > 1 then [s[0] + s[1] - 2] + Combine(s[2..])
    else [s[0] - 1] + Combine(s[1..])
  }

  /** The identifiers that fit in the run buffer, without the last one stored. */
  function Stored(codes: seq<int>): (r: seq<int>)
    requires |codes| >= 1
    ensures |r| < MAXRUNS
  {
    if |codes| <= MAXRUNS then codes[..|codes| - 1] else codes[..MAXRUNS - 1]
  }

  /** The pixel count kept in a short. */
  function Pels(runs: seq<int>): (r: int)
    ensures -32768 <= r < 32768
  {
    if runs == [] then 0 else Wrap16(Pels(runs[..|runs| - 1]) + runs[|runs| - 1])
  }

  /** The EOL count after a line of pels pixels. */
  function EolCount(pels: int, eolcnt: int): int {
    if pels != 0 then 0 else eolcnt + 1
  }

  /** What reading a line returns: -2 if a pad was needed, -1 on RTC, else the number of runs. */
  function ReadStatus(n: nat, pels: int, eolcnt: int, last: nat, bits: nat): int {
    if last + 9 > bits then -2
    else if pels == 0 && EolCount(pels, eolcnt) >= RTCEOL then -1
    else n
  }

  // ----- shift-register arithmetic -----

  lemma ModOfMod(v: nat, m: nat, n: nat)
    requires m <= n
    ensures (v % Pow2(n)) % Pow2(m) == v % Pow2(m)
  {
    Pow2Add(n - m, m);
    ModDivides(v, Pow2(m), Pow2(n - m));
  }

  lemma ShiftDigits(x: nat, p: nat, s: nat, v: nat)
    requires p > 0 && s > 0 && v < s
    ensures p * s > 0
    ensures (x * s + v) % (p * s) == (x % p) * s + v
  {
    var q, r := x / p, x % p;
    MulLe(1, p, s);
    MulAdd(q * p, r, s);
    MulAssoc(q, p, s);
    MulLe(r + 1, p, s);
    MulAdd(r, 1, s);
    DivModUnique(x * s + v, p * s, q, r * s + v);
  }

  /** Shifting k bits of value v into a 32-bit register extends its low m bits. */
  lemma ShiftIn(x: nat, m: nat, k: nat, v: nat)
    requires m + k <= 32 && v < Pow2(k)
    ensures ((x * Pow2(k) + v) % Pow2(32)) % Pow2(m + k) == (x % Pow2(m)) * Pow2(k) + v
  {
    hide Pow2;
    ModOfMod(x * Pow2(k) + v, m + k, 32);
    Pow2Add(m, k);
    ShiftDigits(x, Pow2(m), Pow2(k), v);
  }

  /** The 9 bits above the low s bits of a register. */
  lemma TopNine(x: nat, s: nat, w: nat, low: nat)
    requires x % Pow2(s + 9) == w * Pow2(s) + low && low < Pow2(s) && w < 512
    ensures (x / Pow2(s)) % 512 == w
  {
    var p := Pow2(s);
    Pow2Add(s, 9);
    assert Pow2(9) == 512 by { Pow2Values(); }
    var q := x / (512 * p);
    assert x == q * (512 * p) + (w * p + low);
    MulAssoc(q, 512, p);
    MulAdd(q * 512, w, p);
    DivModUnique(x, p, q * 512 + w, low);
    DivModUnique(q * 512 + w, 512, q, w);
  }

  /** Dropping the top bits of the undecoded part of a register. */
  lemma DropTop(x: nat, m: nat, n: nat, hi: nat, low: nat)
    requires n <= m && x % Pow2(m) == hi * Pow2(n) + low && low < Pow2(n)
    ensures x % Pow2(n) == low
  {
    ModOfMod(x, n, m);
    DivModUnique(x % Pow2(m), Pow2(n), hi, low);
  }

  // ----- the tables, filled in place -----

  /** The decoder's static tables and the flag that says they have been filled. */
  class CodeTables {
    const tw1: array<Entry>
    const tw2: array<Entry>
    const tb1: array<Entry>
    const tb2: array<Entry>
    const fill: array<Entry>
    var tabinit: bool

    function Repr(): set<object> {
      {this, tw1, tw2, tb1, tb2, fill}
    }

    ghost predicate Sized() {
      && tw1.Length == tw2.Length == tb1.Length == tb2.Length == fill.Length == SIZE
      && tw1 != tw2 && tw1 != tb1 && tw1 != tb2 && tw1 != fill
      && tw2 != tb1 && tw2 != tb2 && tw2 != fill
      && tb1 != tb2 && tb1 != fill && tb2 != fill
    }

    ghost function Contents(): Tables
      reads tw1, tw2, tb1, tb2, fill
    {
      Tables(tw1[..], tw2[..], tb1[..], tb2[..], fill[..])
    }

    ghost predicate Valid()
      reads this, tw1, tw2, tb1, tb2, fill
    {
      Sized() && (tabinit ==> Contents() == FilledTables())
    }

    constructor ()
      ensures Valid() && !tabinit && fresh(Repr())
    {
      hide FilledTables;
      tw1 := new Entry[SIZE](_ => UNDEFINED);
      tw2 := new Entry[SIZE](_ => UNDEFINED);
      tb1 := new Entry[SIZE](_ => UNDEFINED);
      tb2 := new Entry[SIZE](_ => UNDEFINED);
      fill := new Entry[SIZE](_ => UNDEFINED);
      tabinit := false;
    }

    function Of(t: Table): array<Entry> {
      match t
      case TW1 => tw1
      case TW2 => tw2
      case TB1 => tb1
      case TB2 => tb2
      case FILL => fill
    }

    /** Fill the tables, once. */
    method Init()
      requires Valid()
      modifies Repr()
      ensures Valid() && tabinit
    {
      hide Install, CodeOf, FillTable;
      if !tabinit {
        InitBase(White, tw1, tw2);
        InitBase(Black, tb1, tb2);
        InitFill(fill);
        Init1Dtab(White, tw1, tw2);
        Init1Dtab(Black, tb1, tb2);
        tabinit := true;
      }
    }
  }

  lemma AllBlank(s: seq<Entry>)
    requires |s| == SIZE && forall i :: 0 <= i < SIZE ==> s[i] == UNDEFINED
    ensures s == Blank()
  {
  }

  /** Store e at the 2^shift indices of tab that begin with cword. */
  method StoreCode(tab: array<Entry>, cword: nat, shift: nat, e: Entry)
    requires tab.Length == SIZE && shift <= 11 && Span(cword + 1, shift) <= SIZE
    modifies tab
    ensures tab[..] == AddCode(old(tab[..]), cword, shift, e)
  {
    var i := Span(cword, shift);
    var n := Span(1, shift);
    ghost var end := Span(cword + 1, shift);
    while n > 0
      invariant 0 <= n && i + n == end
      invariant Span(cword, shift) <= i
      invariant forall k :: 0 <= k < SIZE ==>
        tab[k] == if Span(cword, shift) <= k < i then e else old(tab[k])
    {
      tab[i] := e;
      i := i + 1;
      n := n - 1;
    }
  }

  /** Undefined codes, and leading zeros, in a colour's two tables. */
  method InitBase(c: Colour, t1: array<Entry>, t2: array<Entry>)
    requires t1.Length == t2.Length == SIZE && t1 != t2
    modifies t1, t2
    ensures t1[..] == Base1(c) && t2[..] == Base2()
  {
    StoreCode(t1, 0, 9, UNDEFINED);
    StoreCode(t2, 0, 9, UNDEFINED);
    AllBlank(t1[..]);
    AllBlank(t2[..]);
    StoreCode(t1, 0, 0, Go2(c));
    StoreCode(t2, 0, 2, GO_FILL);
  }

  /** The FILL table. */
  method InitFill(fill: array<Entry>)
    requires fill.Length == SIZE
    modifies fill
    ensures fill[..] == FillTable(9)
  {
    StoreCode(fill, 0, 9, UNDEFINED);
    AllBlank(fill[..]);
    StoreCode(fill, 0, 0, Entry(FILL, 9, 0));
    var i := 0;
    while i <= 8
      invariant 0 <= i <= 9
      invariant fill[..] == FillTable(i)
    {
      StoreCode(fill, 1, i, EolEntry(i));
      i := i + 1;
    }
  }

  /** Add all codes of colour c to its two tables. */
  method Init1Dtab(c: Colour, t1: array<Entry>, t2: array<Entry>)
    requires t1.Length == t2.Length == SIZE && t1 != t2
    modifies t1, t2
    ensures (t1[..], t2[..]) == Install(c, NCODES, old(t1[..]), old(t2[..]))
  {
    hide CodeOf;
    var i := 0;
    while i < NCODES
      invariant 0 <= i <= NCODES
      invariant (t1[..], t2[..]) == Install(c, i, old(t1[..]), old(t2[..]))
    {
      var p := CodeOf(c, i);
      CodeShape(c, i);
      if p.bits <= 9 {
        StoreCode(t1, p.code, 9 - p.bits, ShortEntry(c, i));
      } else {
        StoreCode(t1, p.code / Span(1, p.bits - 9), 0, Go2(c));
        StoreCode(t2, p.code, 13 - p.bits, LongEntry(c, i));
      }
      i := i + 1;
    }
  }
}
