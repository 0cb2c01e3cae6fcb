/** The fax page reader: bit register, current table and EOL count, updated in place. */
module T4File {
  import opened Bits
  import opened BitOrder
  import opened T4DecodeTables
  import opened T4Stream
  import opened T4Reader

  const EOF: int := -1

  /** The low shift + 9 bits of register x are the stream's bits from pos. */
  ghost predicate Register(file: seq<byte>, pos: nat, shift: int, x: nat) {
    -9 <= shift && x % Pow2(shift + 9) == Window(file, pos, shift + 9)
  }

  /** The line at bit pos of a file, decoded with the tables as filled. */
  ghost function LineAt(file: seq<byte>, t: Table, pos: nat): Line {
    hide FilledTables;
    FilledTablesAreGood();
    Decode(FilledTables(), file, t, pos)
  }

  /** What one call reads: status, runs, and where that leaves the reader. */
  datatype Outcome = Outcome(ret: int, runs: seq<int>, pels: int, end: nat, eolcnt: int)

  /** Reading the line at bit pos when eolcnt EOLs in a row have ended empty lines. */
  ghost function ReadAt(file: seq<byte>, pos: nat, eolcnt: int): Outcome {
    hide FilledTables;
    FilledTablesAreGood();
    var line := LineAt(file, TW1, pos);
    DecodedCodes(FilledTables(), file, TW1, pos);
    var rs := Combine(Stored(line.codes));
    var pels := Pels(rs);
    Outcome(ReadStatus(|rs|, pels, eolcnt, line.last, 8 * |file|), rs, pels, line.end, EolCount(pels, eolcnt))
  }

  class FaxFile {
    const raw: seq<byte>
    const revbits: bool
    const tabs: CodeTables
    var next: nat             // bytes read
    var x: nat                // bit register (32 bits)
    var shift: int            // undecoded bits in x, less 9
    var tab: Table
    var eolcnt: int
    var lines: int
    ghost var pos: nat        // bits decoded
    ghost var pads: nat       // EOL pads supplied at end of file

    /** The file in normal bit order. */
    function Image(): (r: seq<byte>)
      ensures |r| == |raw|
    {
      if revbits then NormalBytes(raw) else raw
    }

    ghost predicate Decoding()
      reads this, tabs, tabs.tw1, tabs.tw2, tabs.tb1, tabs.tb2, tabs.fill
    {
      && tabs.Valid() && tabs.tabinit
      && next <= |raw| && (pads > 0 ==> next == |raw| && pos + 9 > 8 * |raw|)
      && -9 <= shift <= 14 && pos + (shift + 9) == 8 * next + 15 * pads
      && Register(Image(), pos, shift, x)
    }

    /** Between lines. */
    ghost predicate Valid()
      reads this, tabs, tabs.tw1, tabs.tw2, tabs.tb1, tabs.tb2, tabs.fill
    {
      Decoding() && tab == TW1 && (pads == 0 ==> shift <= 6)
    }

    constructor (raw: seq<byte>, revbits: bool, tabs: CodeTables)
      ensures this.raw == raw && this.revbits == revbits && this.tabs == tabs && next == 0
    {
      this.raw, this.revbits, this.tabs := raw, revbits, tabs;
      next, x, shift, tab, eolcnt, lines := 0, 0, -9, TW1, 0, 0;
      pos, pads := 0, 0;
    }

    /** Reset the decoder at the start of a file. */
    method NewDecoder()
      requires tabs.Valid() && next == 0
      modifies this`x, this`shift, this`tab, this`eolcnt, this`pos, this`pads, tabs.Repr()
      ensures Valid() && pos == 0 && pads == 0 && eolcnt == 0
    {
      hide FilledTables;
      tabs.Init();
      x, shift, tab, eolcnt := 0, -9, TW1, 0;
      pos, pads := 0, 0;
    }

    /** Append one byte, or at end of file one pad, to the register. */
    method Load() returns (c: int)
      requires Decoding() && shift < 0
      modifies this`next, this`x, this`shift, this`pads
      ensures Decoding()
      ensures c == EOF <==> old(next) == |raw|
      ensures c == EOF ==> shift == old(shift) + 15 && pads == old(pads) + 1 && next == old(next)
      ensures c != EOF ==> shift == old(shift) + 8 && pads == old(pads) && next == old(next) + 1
    {
      hide FilledTables, Register, StreamBit, Window, Pow2;
      ghost var n, k, s, r := next, pads, shift, x;
      if next == |raw| {
        c := EOF;
        x := (x * 0x8000 + 1) % WORD;
        shift := shift + 15;
        pads := pads + 1;
        RegisterPad(Image(), k, pos, s, r);
      } else {
        c := raw[next];
        if revbits { c := NormalBits(c); }
        next := next + 1;
        x := (x * 0x100 + c) % WORD;
        shift := shift + 8;
        RegisterByte(Image(), n, pos, s, r);
      }
    }

    /** Bits of the stream moved into the register so far. */
    ghost function Loaded(): nat
      reads this`next, this`pads
    {
      8 * next + 15 * pads
    }

    /** The line that starts here. */
    ghost function Line(): Line
      reads this`tab, this`pos
    {
      LineAt(Image(), tab, pos)
    }

    /** Read bytes, then pads, until a 9-bit window is in the register. */
    method Refill(cIn: int) returns (c: int)
      requires Decoding()
      modifies this`next, this`x, this`shift, this`pads
      ensures Decoding() && 0 <= shift
      ensures (c == cIn && pads == old(pads) && Loaded() == old(Loaded()) && shift == old(shift))
           || ((c == EOF <==> pads > 0) && Loaded() < pos + 24 && (pads == 0 ==> shift <= 7))
    {
      hide FilledTables, Register;
      c := cIn;
      while shift < 0
        invariant Decoding()
        invariant (c == cIn && pads == old(pads) && Loaded() == old(Loaded()) && shift == old(shift))
               || ((c == EOF <==> pads > 0) && Loaded() < pos + 24 && (pads == 0 ==> shift <= 7))
        decreases -shift
      {
        c := Load();
      }
    }

    /** One table lookup at the current position. */
    method TableEntry(cIn: int) returns (c: int, t: Entry)
      requires Decoding()
      modifies this`next, this`x, this`shift, this`pads, this`tab, this`pos
      ensures Decoding() && (old(pads == 0 ==> shift <= 7) && pads == 0 ==> shift <= 6)
      ensures t == Lookup(FilledTables(), old(tab), Window9(Image(), old(pos)))
      ensures tab == t.next && pos == old(pos) + t.bits && t.bits >= 1
      ensures (c == cIn && pads == old(pads) && Loaded() == old(Loaded()))
           || ((c == EOF <==> pads > 0) && Loaded() < old(pos) + 24)
      ensures Loaded() >= old(pos) + 9
    {
      hide FilledTables, Register, Window9;
      c := Refill(cIn);
      RegisterTop(Image(), pos, shift, x);
      t := tabs.Of(tab)[(x / Pow2(shift)) % 512];
      LookupBits(tab, Window9(Image(), pos));
      RegisterDrop(Image(), pos, shift, x, t.bits);
      tab := t.next;
      shift := shift - t.bits;
      pos := pos + t.bits;
    }

    /** A lookup consumes part of the line, or ends it. */
    method LookUp(cIn: int) returns (c: int, code: int)
      requires Decoding()
      modifies this`next, this`x, this`shift, this`pads, this`tab, this`pos
      ensures Decoding() && (old(pads == 0 ==> shift <= 7) && pads == 0 ==> shift <= 6)
      ensures Step(old(Line()), code, Line(), old(pos), pos)
      ensures code == -1 ==> tab == TW1
      ensures code != -1 ==> Left(Image(), tab, pos) < old(Left(Image(), tab, pos))
      ensures (c == cIn && pads == old(pads) && Loaded() == old(Loaded()))
           || ((c == EOF <==> pads > 0) && Loaded() < old(pos) + 24)
      ensures Loaded() >= old(pos) + 9
    {
      hide FilledTables, Register, Window9, Decode, Left;
      LineStep(tab, Image(), pos);
      var t;
      c, t := TableEntry(cIn);
      code := t.code;
    }

    /** Read code identifiers up to EOL into runs; the buffer keeps the first MAXRUNS of them. */
    method ReadCodes(runs: array<int>) returns (p: nat, c: int)
      requires Valid() && runs.Length == MAXRUNS
      modifies this`next, this`x, this`shift, this`pads, this`tab, this`pos, runs
      ensures Valid()
      ensures pos == old(Line()).end
      ensures Kept(runs[..], p, old(Line()).codes)
      ensures c == EOF <==> old(Line()).last + 9 > 8 * |raw|
      ensures pads <= old(pads) + 3
    {
      hide FilledTables, Register, Decode, Window9, Left;
      ghost var line := Line();
      ghost var cs: seq<int> := [];
      ghost var last := pos;
      p, c := 0, EOF;
      var code := 0;
      while code != -1
        invariant Decoding() && (pads == 0 ==> shift <= 6)
        invariant Progress(line, cs, code, Line(), last, pos)
        invariant code == -1 ==> tab == TW1
        invariant Kept(runs[..], p, cs)
        invariant Reading(c, pads, Loaded(), old(Loaded()), last)
        invariant code == -1 ==> Loaded() >= last + 9
        decreases if code == -1 then 0 else 1 + Left(Image(), tab, pos)
      {
        last := pos;
        ghost var rest := Line();
        c, code := LookUp(c);
        ProgressStep(line, cs, rest, code, Line(), last, pos);
        if code != 0 {
          KeepOne(runs[..], p, cs, code);
          cs := cs + [code];
          if p < MAXRUNS {
            runs[p] := code;
            p := p + 1;
          }
        }
      }
      LineBounds(Image(), old(pos));
      PadsRead(8 * |raw|, old(pos), old(Loaded()), old(pads), old(shift), 8 * next, pads, c, line.last, line.end);
    }

    /** Read one line's runs. Returns their number, or -1 on RTC, or -2 when the file ended. */
    method ReadRuns(runs: array<int>) returns (ret: int, pels: int)
      requires Valid() && runs.Length == MAXRUNS
      modifies this`next, this`x, this`shift, this`pads, this`tab, this`pos, this`eolcnt, runs
      ensures Valid()
      ensures var o := ReadAt(Image(), old(pos), old(eolcnt));
        && ret == o.ret && pels == o.pels && pos == o.end && eolcnt == o.eolcnt
        && |o.runs| <= runs.Length && runs[..|o.runs|] == o.runs
      ensures pads <= old(pads) + 3
    {
      hide FilledTables, Register, Decode, Window9, Left;
      FilledTablesAreGood();
      DecodedCodes(FilledTables(), Image(), tab, pos);
      ghost var codes := Line().codes;
      var p, c := ReadCodes(runs);
      assert codes[..p][..p - 1] == Stored(codes);
      assert runs[..p][..p - 1] == runs[..p - 1];
      var n;
      n, pels := CombineRuns(runs, p - 1);
      var err := 0;
      if pels != 0 {
        eolcnt := 0;
      } else {
        eolcnt := eolcnt + 1;
        if eolcnt >= RTCEOL { err := EOF; }
      }
      if c == EOF { err := -2; }
      ret := if err != 0 then err else n;
    }

    /** Start a page: reset the decoder and skip the first EOL. */
    method FaxReset(runs: array<int>)
      requires tabs.Valid() && next == 0 && runs.Length == MAXRUNS
      modifies this, tabs.Repr(), runs
      ensures Valid() && lines == -1
      ensures var o := ReadAt(Image(), 0, 0); pos == o.end && eolcnt == o.eolcnt
    {
      hide FilledTables, Register, Decode, Window9, Left;
      NewDecoder();
      var ret, pels := ReadRuns(runs);
      lines := -1;
    }
  }

  /** Combine the n identifiers in runs, in place; also count the pixels. */
  method CombineRuns(runs: array<int>, n: nat) returns (q: nat, len: int)
    requires n <= runs.Length
    modifies runs
    ensures var rs := Combine(old(runs[..n])); q == |rs| && runs[..q] == rs && len == Pels(rs)
  {
    hide Combine, Pels;
    var m: int := n;
    var p := 0;
    q, len := 0, 0;
    ghost var s, done := runs[..n], [];
    NothingCombined(s);
    while m > 0
      invariant 0 <= q <= p <= n && (m == n - p || (p == n && m <= 0))
      invariant forall k :: p <= k < n ==> runs[k] == s[k]
      invariant runs[..q] == done && Combine(s) == done + Combine(s[p..])
      invariant len == Pels(done)
      decreases n - p
    {
      m := m - 1;
      var both := false;
      if runs[p] > 64 {
        both := m > 0;
        m := m - 1;
      }
      CombineNext(s, p, done);
      if both {
        runs[q] := runs[p] + runs[p + 1] - 2;
        p := p + 2;
      } else {
        runs[q] := runs[p] - 1;
        p := p + 1;
      }
      PelsNext(done, runs[q]);
      len := Wrap16(len + runs[q]);
      done := done + [runs[q]];
      q := q + 1;
    }
  }

  lemma NothingCombined(s: seq<int>)
    ensures Combine(s) == [] + Combine(s[0..]) && Combine(s[|s|..]) == [] && Pels([]) == 0
  {
    assert s[0..] == s;
  }

  lemma CombineHead(t: seq<int>)
    requires t != []
    ensures Combine(t)
         == if t[0] > 64 && |t| > 1 then [t[0] + t[1] - 2] + Combine(t[2..]) else [t[0] - 1] + Combine(t[1..])
  {
  }

  lemma Regroup(all: seq<int>, a: seq<int>, v: int, b: seq<int>)
    requires all == a + ([v] + b)
    ensures all == (a + [v]) + b
  {
  }

  /** How many identifiers the run at position p of s takes, and its length. */
  function RunAt(s: seq<int>, p: nat): (r: (nat, int))
    requires p < |s|
    ensures p < p + r.0 <= |s|
  {
    if s[p] > 64 && p + 1 < |s| then (2, s[p] + s[p + 1] - 2) else (1, s[p] - 1)
  }

  lemma CombineAt(s: seq<int>, p: nat)
    requires p < |s|
    ensures Combine(s[p..]) == [RunAt(s, p).1] + Combine(s[p + RunAt(s, p).0..])
  {
    hide Combine;
    var t, k := s[p..], RunAt(s, p).0;
    CombineHead(t);
    assert t[k..] == s[p + k..];
  }

  lemma CombineNext(s: seq<int>, p: nat, done: seq<int>)
    requires p < |s| && Combine(s) == done + Combine(s[p..])
    ensures Combine(s) == done + [RunAt(s, p).1] + Combine(s[p + RunAt(s, p).0..])
  {
    hide Combine, RunAt;
    CombineAt(s, p);
    Regroup(Combine(s), done, RunAt(s, p).1, Combine(s[p + RunAt(s, p).0..]));
  }

  lemma PelsNext(s: seq<int>, v: int)
    ensures Pels(s + [v]) == Wrap16(Pels(s) + v)
  {
    assert (s + [v])[..|s|] == s;
  }

  function Min(a: nat, b: nat): nat {
    if a < b then a else b
  }

  /** The buffer holds the first MAXRUNS of these identifiers. */
  predicate Kept(runs: seq<int>, p: nat, codes: seq<int>) {
    p == Min(|codes|, MAXRUNS) && p <= |runs| && runs[..p] == codes[..p]
  }

  lemma KeepOne(runs: seq<int>, p: nat, cs: seq<int>, code: int)
    requires |runs| == MAXRUNS && Kept(runs, p, cs)
    ensures p == MAXRUNS ==> Kept(runs, p, cs + [code])
    ensures p < MAXRUNS ==> Kept(runs[p := code], p + 1, cs + [code])
  {
  }

  /** Either nothing has been read, or c tells whether the last read was a pad. */
  predicate Reading(c: int, pads: nat, loaded: nat, loaded0: nat, last: nat) {
    (c == EOF && loaded == loaded0) || ((c == EOF <==> pads > 0) && loaded < last + 24)
  }

  /** The effect of one lookup on the line still to be read. */
  ghost predicate Step(line: Line, code: int, rest: Line, pos: nat, pos': nat) {
    if code == -1 then line == Line.Line([-1], pos', pos) else line == Prefixed(code, rest)
  }

  /** What has been read of a line: identifiers cs, then `rest` unless the EOL was found. */
  predicate Progress(line: Line, cs: seq<int>, code: int, rest: Line, last: nat, pos: nat) {
    if code == -1 then line.codes == cs && line.end == pos && line.last == last
    else line.codes == cs + rest.codes && line.end == rest.end && line.last == rest.last
  }

  lemma ProgressStep(line: Line, cs: seq<int>, rest: Line, code: int, rest': Line, last: nat, pos: nat)
    requires line.codes == cs + rest.codes && line.end == rest.end && line.last == rest.last
    requires Step(rest, code, rest', last, pos)
    ensures Progress(line, if code == 0 then cs else cs + [code], code, rest', last, pos)
  {
    if code != 0 && code != -1 {
      assert cs + ([code] + rest'.codes) == cs + [code] + rest'.codes;
    }
  }

  lemma LineBounds(file: seq<byte>, pos: nat)
    ensures GoodTables(FilledTables())
    ensures var line := Decode(FilledTables(), file, TW1, pos);
      pos + 11 <= line.last < line.end <= (if pos < 8 * |file| then 8 * |file| else pos) + 30
  {
    hide FilledTables;
    FilledTablesAreGood();
    EolForced(FilledTables(), file, TW1, pos);
  }

  /** At EOL: c says whether the end of file (bit n) was passed, and at most three pads were used. */
  lemma PadsRead(n: nat, pos: nat, loaded0: nat, pads0: nat, shift0: int, read: nat, pads: nat, c: int, last: nat,
                 end: nat)
    requires pos + 11 <= last < end <= (if pos < n then n else pos) + 30
    requires Reading(c, pads, read + 15 * pads, loaded0, last) && read + 15 * pads >= last + 9
    requires read <= n && (pads > 0 ==> read == n)
    requires shift0 >= -9 && loaded0 == pos + (shift0 + 9)
    requires pads0 == 0 ==> shift0 <= 6 && loaded0 <= n
    requires pads0 != 0 ==> pos + 9 > n && loaded0 == n + 15 * pads0 && pads >= pads0
    ensures c == EOF <==> last + 9 > n
    ensures pads <= pads0 + 3
  {
  }

  lemma LineStep(t: Table, file: seq<byte>, pos: nat)
    ensures GoodTables(FilledTables())
    ensures var tt := FilledTables();
      var e := Lookup(tt, t, Window9(file, pos));
      && (e.code == -1 ==> Decode(tt, file, t, pos) == Line([-1], pos + e.bits, pos) && e.next == TW1)
      && (e.code != -1 ==>
           Decode(tt, file, t, pos) == Prefixed(e.code, Decode(tt, file, e.next, pos + e.bits))
           && Left(file, e.next, pos + e.bits) < Left(file, t, pos))
  {
    hide FilledTables, Window9;
    FilledTablesAreGood();
    var tt := FilledTables();
    var e := Lookup(tt, t, Window9(file, pos));
    LookupProgress(tt, file, t, pos);
    if e.code == -1 { DecodeEol(tt, file, t, pos, e); } else { DecodeVia(tt, file, t, pos, e); }
  }

  lemma LookupBits(t: Table, w: nat)
    requires w < SIZE
    ensures 1 <= Lookup(FilledTables(), t, w).bits <= 9
  {
    hide FilledTables;
    FilledTablesAreGood();
    LookupShape(FilledTables(), t, w);
  }

  lemma RegisterPad(file: seq<byte>, pads: nat, pos: nat, shift: int, x: nat)
    requires Register(file, pos, shift, x) && shift < 0 && pos + (shift + 9) == 8 * |file| + 15 * pads
    ensures Register(file, pos, shift + 15, (x * 0x8000 + 1) % WORD)
  {
    LoadPad(file, pos, shift + 9, pads, x);
  }

  lemma RegisterByte(file: seq<byte>, next: nat, pos: nat, shift: int, x: nat)
    requires Register(file, pos, shift, x) && shift < 0 && next < |file| && pos + (shift + 9) == 8 * next
    ensures Register(file, pos, shift + 8, (x * 0x100 + file[next]) % WORD)
  {
    LoadByte(file, pos, shift + 9, next, x);
  }

  /** The lookup index is the 9-bit window at the current position. */
  lemma RegisterTop(file: seq<byte>, pos: nat, shift: nat, x: nat)
    requires Register(file, pos, shift, x)
    ensures (x / Pow2(shift)) % 512 == Window9(file, pos)
  {
    assert shift + 9 == 9 + shift;
    WindowSplit(file, pos, 9, shift);
    TopNine(x, shift, Window9(file, pos), Window(file, pos + 9, shift));
  }

  /** Consuming b bits leaves the register's lower bits. */
  lemma RegisterDrop(file: seq<byte>, pos: nat, shift: nat, x: nat, b: nat)
    requires Register(file, pos, shift, x) && b <= 9
    ensures Register(file, pos + b, shift - b, x)
  {
    var n := shift + 9 - b;
    WindowSplit(file, pos, b, n);
    DropTop(x, shift + 9, n, Window(file, pos, b), Window(file, pos + b, n));
  }

  lemma PowerConstants()
    ensures Pow2(8) == 0x100 && Pow2(15) == 0x8000 && Pow2(32) == WORD
  {
    Pow2Values();
    assert Pow2(16) == 0x1_0000 by { Pow2Add(8, 8); }
    Pow2Add(16, 16);
  }

  lemma {:induction false} ByteWindow(file: seq<byte>, k: nat, n: nat)
    requires k < |file| && n <= 8
    ensures Window(file, 8 * k, n) == Val(ToBits(file[k], 8)[..n])
  {
    if n != 0 {
      ByteWindow(file, k, n - 1);
      BytesToBitsAt(file, k);
      assert ToBits(file[k], 8)[..n][..n - 1] == ToBits(file[k], 8)[..n - 1];
      assert BytesToBits(file)[8 * k..8 * k + 8][n - 1] == BytesToBits(file)[8 * k + n - 1];
    }
  }

  lemma ByteValue(file: seq<byte>, k: nat)
    requires k < |file|
    ensures Window(file, 8 * k, 8) == file[k]
  {
    hide Pow2, ToBits, Window, Val, BytesToBits;
    ByteWindow(file, k, 8);
    assert ToBits(file[k], 8)[..8] == ToBits(file[k], 8);
    ValToBits(file[k], 8);
    assert Pow2(8) == 256 by { Pow2Values(); }
  }

  /** The next byte of the file, appended to m undecoded bits. */
  lemma LoadByte(file: seq<byte>, pos: nat, m: nat, k: nat, x: nat)
    requires k < |file| && m <= 8 && pos + m == 8 * k && x % Pow2(m) == Window(file, pos, m)
    ensures ((x * 0x100 + file[k]) % WORD) % Pow2(m + 8) == Window(file, pos, m + 8)
  {
    PowerConstants();
    WindowSplit(file, pos, m, 8);
    ByteValue(file, k);
    ShiftIn(x, m, 8, file[k]);
  }

  lemma PadValue(file: seq<byte>, p: nat, k: nat)
    requires p == 8 * |file| + 15 * k
    ensures Window(file, p, 15) == 1
  {
    forall i {:trigger StreamBit(file, i)} | p <= i < p + 15
      ensures StreamBit(file, i) == if i == p + 14 then 1 else 0
    {
      DivModUnique(i - 8 * |file|, 15, k, i - p);
    }
    OneHotWindow(file, p, 15, 14);
  }

  /** A pad, appended to m undecoded bits. */
  lemma LoadPad(file: seq<byte>, pos: nat, m: nat, k: nat, x: nat)
    requires m <= 8 && pos + m == 8 * |file| + 15 * k && x % Pow2(m) == Window(file, pos, m)
    ensures ((x * 0x8000 + 1) % WORD) % Pow2(m + 15) == Window(file, pos, m + 15)
  {
    PowerConstants();
    WindowSplit(file, pos, m, 15);
    PadValue(file, pos + m, k);
    ShiftIn(x, m, 15, 1);
  }
}
