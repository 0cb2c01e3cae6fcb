/**
 Fax pages: the bits a page is made of, whatever FILL precedes its EOLs, and the proof
 that reading a page returns the lines it was made from, then the end of the page.
 */
module T4Page {
  import opened Bits
  import opened T4Tables
  import opened T4DecodeTables
  import opened T4Stream
  import opened T4Line
  import opened T4Reader
  import opened T4File

  /** Coded lines, line k ended by fills[k] FILL bits and EOL. */
  function LinesBits(lines: seq<seq<nat>>, fills: seq<nat>): seq<bit>
    requires |fills| == |lines|
  {
    if lines == [] then []
    else
      var n := |lines| - 1;
      LinesBits(lines[..n], fills[..n]) + (LineBits(White, lines[n]) + EolBits(fills[n]))
  }

  /** A page: an EOL, the lines, and the five EOLs of an RTC. */
  function PageLines(lines: seq<seq<nat>>): (all: seq<seq<nat>>)
    ensures |all| == |lines| + 6
  {
    [[]] + lines + [[], [], [], [], []]
  }

  /** The bit at which line k begins. */
  function LineStart(lines: seq<seq<nat>>, fills: seq<nat>, k: nat): nat
    requires |fills| == |lines| && k <= |lines|
  {
    |LinesBits(lines[..k], fills[..k])|
  }

  /** What the n-th read returns; read 0 is the one that resetting the reader makes. */
  ghost function ReadNth(file: seq<byte>, n: nat): Outcome {
    if n == 0 then ReadAt(file, 0, 0)
    else var o := ReadNth(file, n - 1); ReadAt(file, o.end, o.eolcnt)
  }

  // ----- one line -----

  lemma {:induction false} CombineCodes(runs: seq<nat>)
    ensures Combine(LineCodes(runs)) == ClipAll(runs)
  {
    if runs != [] {
      var len, rest := Clip(runs[0]), LineCodes(runs[1..]);
      CombineCodes(runs[1..]);
      var s := RunCodes(len) + rest;
      if len > 63 {
        assert s[2..] == rest;
      } else {
        assert s[1..] == rest;
      }
      assert Combine(s) == [len] + Combine(rest);
      assert ClipAll(runs) == [len] + ClipAll(runs[1..]);
    }
  }

  /** Reading where the stream has a coded line, FILL and EOL returns the line. */
  lemma LineReads(file: seq<byte>, pos: nat, eolcnt: int, runs: seq<nat>, k: nat)
    requires BitsAt(file, pos, LineBits(White, runs) + EolBits(k)) && |LineCodes(runs)| < MAXRUNS
    ensures var o := ReadAt(file, pos, eolcnt);
      && o.runs == ClipAll(runs) && o.pels == Pels(ClipAll(runs))
      && o.end == pos + |LineBits(White, runs) + EolBits(k)| && o.eolcnt == EolCount(o.pels, eolcnt)
      && (o.end + 8 <= 8 * |file| ==>
            o.ret == if o.pels == 0 && o.eolcnt >= RTCEOL then -1 else |runs|)
  {
    hide FilledTables, Decode, LineBits, LineCodes, Combine, Pels, ClipAll;
    FilledTablesAreGood();
    LineDecodes(FilledTables(), file, pos, White, runs, k);
    assert Stored(LineCodes(runs) + [-1]) == LineCodes(runs);
    CombineCodes(runs);
  }

  // ----- lines in a page -----

  lemma SliceOfPrefix(a: seq<bit>, b: seq<bit>, p: nat, q: nat)
    requires p <= q <= |a|
    ensures (a + b)[p..q] == a[p..q]
  {
  }

  lemma LastLine(lines: seq<seq<nat>>, fills: seq<nat>)
    requires |fills| == |lines| > 0
    ensures var n := |lines| - 1;
      LinesBits(lines, fills) == LinesBits(lines[..n], fills[..n]) + (LineBits(White, lines[n]) + EolBits(fills[n]))
  {
  }

  lemma {:induction false} LinesPrefix(lines: seq<seq<nat>>, fills: seq<nat>, k: nat)
    requires |fills| == |lines| && k < |lines|
    ensures var line := LineBits(White, lines[k]) + EolBits(fills[k]);
      var p, q := LineStart(lines, fills, k), LineStart(lines, fills, k + 1);
      && q == p + |line| <= |LinesBits(lines, fills)|
      && LinesBits(lines, fills)[p..q] == line
  {
    hide LineBits, EolBits, LinesBits;
    var n := |lines| - 1;
    var ls, fs := lines[..n], fills[..n];
    LastLine(lines, fills);
    if k == n {
      assert lines[..k + 1] == lines && fills[..k + 1] == fills;
    } else {
      LinesPrefix(ls, fs, k);
      assert ls[..k] == lines[..k] && ls[..k + 1] == lines[..k + 1];
      assert fs[..k] == fills[..k] && fs[..k + 1] == fills[..k + 1];
      SliceOfPrefix(LinesBits(ls, fs), LineBits(White, lines[n]) + EolBits(fills[n]),
                    LineStart(lines, fills, k), LineStart(lines, fills, k + 1));
    }
  }

  lemma BitsFromSlice(file: seq<byte>, whole: seq<bit>, tail: seq<bit>, p: nat, line: seq<bit>)
    requires BytesToBits(file) == whole + tail
    requires p + |line| <= |whole| && whole[p..p + |line|] == line
    ensures BitsAt(file, p, line) && p + |line| <= 8 * |file|
  {
    hide BytesToBits, ToBits, Pow2;
    forall i {:trigger StreamBit(file, i)} | p <= i < p + |line|
      ensures StreamBit(file, i) == line[i - p]
    {
      assert whole[p..p + |line|][i - p] == whole[i];
    }
  }

  /** The stream of a file that holds these lines has line k where it should be. */
  lemma LineInFile(file: seq<byte>, lines: seq<seq<nat>>, fills: seq<nat>, tail: seq<bit>, k: nat)
    requires |fills| == |lines| && k < |lines|
    requires BytesToBits(file) == LinesBits(lines, fills) + tail
    ensures var line := LineBits(White, lines[k]) + EolBits(fills[k]);
      && BitsAt(file, LineStart(lines, fills, k), line)
      && LineStart(lines, fills, k + 1) == LineStart(lines, fills, k) + |line| <= 8 * |file|
  {
    hide LineBits, EolBits, LinesBits;
    LinesPrefix(lines, fills, k);
    BitsFromSlice(file, LinesBits(lines, fills), tail, LineStart(lines, fills, k),
                  LineBits(White, lines[k]) + EolBits(fills[k]));
  }

  // ----- whole pages -----

  /** The reader's EOL count after line k: how many lines up to k in a row had no pixels. */
  function EolsAfter(lines: seq<seq<nat>>, k: nat): (eols: int)
    requires k < |lines|
    ensures 0 <= eols <= k + 1
  {
    EolCount(Pels(ClipAll(lines[k])), if k == 0 then 0 else EolsAfter(lines, k - 1))
  }

  /** Every line of a file is read back, in order, with the status its EOL count gives. */
  lemma {:induction false} NthLine(file: seq<byte>, lines: seq<seq<nat>>, fills: seq<nat>, tail: seq<bit>, k: nat)
    requires |fills| == |lines| && k < |lines|
    requires BytesToBits(file) == LinesBits(lines, fills) + tail
    requires forall j :: 0 <= j < |lines| ==> |LineCodes(lines[j])| < MAXRUNS
    ensures var o := ReadNth(file, k);
      && o.runs == ClipAll(lines[k]) && o.end == LineStart(lines, fills, k + 1) && o.eolcnt == EolsAfter(lines, k)
      && (k + 1 < |lines| ==>
            o.ret == if o.pels == 0 && o.eolcnt >= RTCEOL then -1 else |lines[k]|)
      && (o.pels == 0 && o.eolcnt >= RTCEOL ==> o.ret < 0)
      && o.pels == Pels(ClipAll(lines[k]))
  {
    hide LineBits, EolBits, LinesBits, LineCodes, Pels, ClipAll, ReadAt;
    LineInFile(file, lines, fills, tail, k);
    if k == 0 {
      assert lines[..0] == [] && fills[..0] == [];
      NoLines();
    } else {
      NthLine(file, lines, fills, tail, k - 1);
    }
    var eols := if k == 0 then 0 else EolsAfter(lines, k - 1);
    LineReads(file, LineStart(lines, fills, k), eols, lines[k], fills[k]);
    if k + 1 < |lines| {
      LineInFile(file, lines, fills, tail, k + 1);
    }
    RtcNegative(file, LineStart(lines, fills, k), eols);
  }

  lemma NoLines()
    ensures LinesBits([], []) == []
  {
  }

  lemma RtcNegative(file: seq<byte>, pos: nat, eolcnt: int)
    ensures var o := ReadAt(file, pos, eolcnt); o.pels == 0 && o.eolcnt >= RTCEOL ==> o.ret < 0
  {
  }

  lemma EmptyLine()
    ensures |LineCodes([])| == 0 && ClipAll([]) == [] && Pels([]) == 0
  {
  }

  /** A line that the reader takes for an empty one: no pixels, or a multiple of 65536. */
  predicate Blank(line: seq<nat>) {
    Pels(ClipAll(line)) == 0
  }

  /** Five blank lines in a row. */
  predicate FiveBlank(lines: seq<seq<nat>>) {
    exists k :: 4 <= k < |lines| && BlankRun(lines, k, 5)
  }

  /** The m lines up to line k are blank. */
  predicate BlankRun(lines: seq<seq<nat>>, k: nat, m: nat)
    requires k < |lines|
  {
    m <= k + 1 && forall j :: k + 1 - m <= j <= k ==> Blank(lines[j])
  }

  lemma {:induction false} EolsWindow(lines: seq<seq<nat>>, k: nat, m: nat)
    requires k < |lines|
    ensures EolsAfter(lines, k) >= m <==> BlankRun(lines, k, m)
  {
    hide ClipAll, Pels;
    if k > 0 && m > 0 { EolsWindow(lines, k - 1, m - 1); }
  }

  lemma {:induction false} EolsPrefix(a: seq<seq<nat>>, b: seq<seq<nat>>, k: nat)
    requires k < |a| && k < |b| && forall j :: 0 <= j <= k ==> a[j] == b[j]
    ensures EolsAfter(a, k) == EolsAfter(b, k)
  {
    hide ClipAll, Pels;
    if k > 0 { EolsPrefix(a, b, k - 1); }
  }

  /** The lines of a page after its first EOL, which counts as a blank line. */
  function Opened(lines: seq<seq<nat>>): (all: seq<seq<nat>>)
    ensures |all| == |lines| + 1
  {
    [[]] + lines
  }

  /** In a page's RTC the EOL count goes up by one a line. */
  lemma {:induction false} PageEols(lines: seq<seq<nat>>, k: nat)
    requires k <= |lines| + 5
    ensures EolsAfter(PageLines(lines), k)
         == if k <= |lines| then EolsAfter(Opened(lines), k) else EolsAfter(Opened(lines), |lines|) + k - |lines|
  {
    hide ClipAll, Pels;
    EmptyLine();
    var all := PageLines(lines);
    if k <= |lines| {
      EolsPrefix(all, Opened(lines), k);
    } else {
      assert all[k] == [];
      PageEols(lines, k - 1);
    }
  }

  /** Lines whose identifiers fit the run buffer. */
  predicate Fitting(lines: seq<seq<nat>>) {
    forall j :: 0 <= j < |lines| ==> |LineCodes(lines[j])| < MAXRUNS
  }

  /** Nor is anything on the page taken for its RTC: with the first EOL, no five blank lines in a row. */
  predicate Readable(lines: seq<seq<nat>>) {
    Fitting(lines) && !FiveBlank(Opened(lines))
  }

  /**
   After the reset, reading file returns these lines one by one, then empty lines for the EOLs of the RTC before the
   one that makes five (four, less the blank lines that end the page), then a negative status.
   */
  ghost predicate ReadsAs(file: seq<byte>, lines: seq<seq<nat>>) {
    var n, blank := |lines|, 4 - EolsAfter(Opened(lines), |lines|);
    && (forall k :: 0 <= k < n ==>
          ReadNth(file, k + 1).ret == |lines[k]| && ReadNth(file, k + 1).runs == ClipAll(lines[k]))
    && (forall k :: n < k <= n + blank ==> ReadNth(file, k).ret == 0)
    && ReadNth(file, n + blank + 1).ret < 0
  }

  lemma NeverFive(lines: seq<seq<nat>>)
    ensures !FiveBlank(Opened(lines)) <==> forall k :: 1 <= k <= |lines| ==> EolsAfter(Opened(lines), k) < 5
  {
    hide EolsAfter, BlankRun, Opened;
    var all := Opened(lines);
    if FiveBlank(all) {
      var k :| 4 <= k < |all| && BlankRun(all, k, 5);
      EolsWindow(all, k, 5);
    } else {
      forall k | 1 <= k <= |lines| ensures EolsAfter(all, k) < 5 {
        EolsWindow(all, k, 5);
      }
    }
  }

  /** The file begins with this page. */
  ghost predicate PageIn(file: seq<byte>, lines: seq<seq<nat>>, fills: seq<nat>, tail: seq<bit>) {
    |fills| == |lines| + 6 && BytesToBits(file) == LinesBits(PageLines(lines), fills) + tail
  }

  /** Line k of a page comes back, with a negative status exactly if it is the fifth blank one in a row. */
  lemma PageLine(file: seq<byte>, lines: seq<seq<nat>>, fills: seq<nat>, tail: seq<bit>, k: nat)
    requires PageIn(file, lines, fills, tail)
    requires Fitting(lines) && k <= |lines| + 5
    ensures var o, eols := ReadNth(file, k), EolsAfter(PageLines(lines), k);
      && o.runs == ClipAll(PageLines(lines)[k]) && (eols >= RTCEOL ==> o.ret < 0)
      && (k < |lines| + 5 && eols < RTCEOL ==> o.ret == |PageLines(lines)[k]|)
  {
    hide LineBits, EolBits, LinesBits, LineCodes, Pels, ClipAll, ReadNth, EolsAfter, BytesToBits;
    AllFit(lines);
    NthLine(file, PageLines(lines), fills, tail, k);
    OnlyBlank(PageLines(lines), k);
  }

  lemma AllFit(lines: seq<seq<nat>>)
    requires Fitting(lines)
    ensures Fitting(PageLines(lines))
  {
    hide LineCodes;
    EmptyLine();
    var all, n := PageLines(lines), |lines|;
    forall j | 0 <= j < |all| ensures |LineCodes(all[j])| < MAXRUNS {
      if 1 <= j <= n { assert all[j] == lines[j - 1]; } else { assert all[j] == []; }
    }
  }

  lemma OnlyBlank(lines: seq<seq<nat>>, k: nat)
    requires k < |lines|
    ensures EolsAfter(lines, k) >= 1 ==> Pels(ClipAll(lines[k])) == 0
  {
    hide Pels, ClipAll;
  }

  /**
   A page is read back as the lines it was made from (runs the tables cannot code cut to
   MAXRUNLEN), then empty lines, then a negative status, if and only if no five of its lines in a
   row are blank, its first EOL counting as one. FILL before any EOL, and anything after the last
   EOL, changes nothing.
   */
  lemma PageReadsBack(file: seq<byte>, lines: seq<seq<nat>>, fills: seq<nat>, tail: seq<bit>)
    requires |fills| == |lines| + 6
    requires BytesToBits(file) == LinesBits(PageLines(lines), fills) + tail
    requires Fitting(lines)
    ensures ReadsAs(file, lines) <==> Readable(lines)
  {
    hide ReadsAs, Readable;
    PageInReads(file, lines, fills, tail);
  }

  lemma PageInReads(file: seq<byte>, lines: seq<seq<nat>>, fills: seq<nat>, tail: seq<bit>)
    requires PageIn(file, lines, fills, tail) && Fitting(lines)
    ensures ReadsAs(file, lines) <==> Readable(lines)
  {
    hide PageIn, Fitting, ClipAll, ReadNth, EolsAfter, FiveBlank, PageLines, Opened;
    var n := |lines|;
    NeverFive(lines);
    forall k | 0 <= k < n
      ensures ReadNth(file, k + 1).runs == ClipAll(lines[k])
      ensures ReadNth(file, k + 1).ret == |lines[k]| <==> EolsAfter(Opened(lines), k + 1) < 5
    {
      TextLine(file, lines, fills, tail, k);
    }
    forall k | n < k <= n + 5
      ensures var eols := EolsAfter(Opened(lines), n) + k - n;
        if eols >= RTCEOL then ReadNth(file, k).ret < 0 else ReadNth(file, k).ret == 0
    {
      RtcLine(file, lines, fills, tail, k);
    }
    OnlyFirstEol(lines);
    if Readable(lines) {
      var e := EolsAfter(Opened(lines), n);
      assert e < 5;
      assert ReadNth(file, n + (4 - e) + 1).ret < 0;
      forall k | 0 <= k < n ensures ReadNth(file, k + 1).ret == |lines[k]| {
        assert EolsAfter(Opened(lines), k + 1) < 5;
        TextLine(file, lines, fills, tail, k);
      }
      assert forall k :: n < k <= n + (4 - e) ==> ReadNth(file, k).ret == 0;
    } else {
      var k :| 1 <= k <= n && EolsAfter(Opened(lines), k) >= 5;
      assert ReadNth(file, (k - 1) + 1).ret != |lines[k - 1]|;
    }
  }

  lemma OnlyFirstEol(lines: seq<seq<nat>>)
    ensures |Opened(lines)| == |lines| + 1 && (lines == [] ==> EolsAfter(Opened(lines), |lines|) == 1)
  {
    EmptyLine();
  }

  lemma PageAt(lines: seq<seq<nat>>, k: nat)
    requires 1 <= k <= |lines| + 5
    ensures PageLines(lines)[k] == if k <= |lines| then lines[k - 1] else []
  {
  }

  lemma TextLine(file: seq<byte>, lines: seq<seq<nat>>, fills: seq<nat>, tail: seq<bit>, k: nat)
    requires PageIn(file, lines, fills, tail)
    requires Fitting(lines) && k < |lines|
    ensures ReadNth(file, k + 1).runs == ClipAll(lines[k])
    ensures ReadNth(file, k + 1).ret == |lines[k]| <==> EolsAfter(Opened(lines), k + 1) < 5
  {
    hide PageIn, Fitting, ClipAll, ReadNth, EolsAfter, PageLines, Opened;
    PageAt(lines, k + 1);
    PageLine(file, lines, fills, tail, k + 1);
    PageEols(lines, k + 1);
  }

  lemma RtcLine(file: seq<byte>, lines: seq<seq<nat>>, fills: seq<nat>, tail: seq<bit>, k: nat)
    requires PageIn(file, lines, fills, tail)
    requires Fitting(lines) && |lines| < k <= |lines| + 5
    ensures var eols := EolsAfter(Opened(lines), |lines|) + k - |lines|;
      if eols >= RTCEOL then ReadNth(file, k).ret < 0 else ReadNth(file, k).ret == 0
  {
    hide PageIn, Fitting, ClipAll, ReadNth, EolsAfter, PageLines, Opened;
    PageAt(lines, k);
    PageLine(file, lines, fills, tail, k);
    PageEols(lines, k);
  }
}
