/** The O_FAX output file: pages written line by line, updated in place. */
module T4Output {
  import opened Bits
  import opened T4Tables
  import opened T4Line
  import opened T4Page
  import opened T4Writer

  function NoFill(n: nat): (s: seq<nat>)
    ensures |s| == n
  {
    seq(n, _ => 0)
  }

  /** n copies of a line. */
  function Copies(runs: seq<nat>, n: nat): (s: seq<seq<nat>>)
    ensures |s| == n
  {
    seq(n, _ => runs)
  }

  lemma EolIsCode()
    ensures ToBits(EOLCODE, EOLBITS) == EolBits(0)
    ensures ToBits(1, 8) == Zeros(7) + [1]
  {
    Ones(12);
    Ones(8);
  }

  lemma {:induction false} Ones(n: nat)
    requires n >= 1
    ensures ToBits(1, n) == Zeros(n - 1) + [1]
  {
    ZeroBits(n - 1);
  }

  lemma {:induction false} ZeroBits(n: nat)
    ensures ToBits(0, n) == Zeros(n)
  {
    if n != 0 { ZeroBits(n - 1); }
  }

  /** One more line. */
  lemma LinesSnoc(lines: seq<seq<nat>>, fills: seq<nat>, runs: seq<nat>, k: nat)
    requires |fills| == |lines|
    ensures LinesBits(lines + [runs], fills + [k]) == LinesBits(lines, fills) + (LineBits(White, runs) + EolBits(k))
  {
    hide LineBits, EolBits;
    var all, fs := lines + [runs], fills + [k];
    assert all[..|lines|] == lines && fs[..|lines|] == fills;
  }

  /** One more line, with no FILL. */
  lemma AddLine(lines: seq<seq<nat>>, runs: seq<nat>)
    ensures LinesBits(lines + [runs], NoFill(|lines| + 1))
         == LinesBits(lines, NoFill(|lines|)) + (LineBits(White, runs) + EolBits(0))
  {
    hide LineBits, EolBits, LinesBits;
    LinesSnoc(lines, NoFill(|lines|), runs, 0);
    assert NoFill(|lines| + 1) == NoFill(|lines|) + [0];
  }

  /** A register that ends with an EOL ends with a one after zeros. */
  lemma AfterEol(x: nat, q: nat)
    requires ToBits(x, EOLBITS) == ToBits(EOLCODE, EOLBITS) && 1 <= q <= 8
    ensures ToBits(x, q) == Zeros(q - 1) + [1]
    ensures ToBits(x % 256, 8) == Zeros(7) + [1]
  {
    hide ToBits, EolBits;
    EolIsCode();
    LowBits(x, 12, q);
    LowBits(x, 12, 8);
    ToBitsMod(x, 8, 8);
    assert Pow2(8) == 256 by { Pow2Values(); }
    EolTail(q);
    EolTail(8);
  }

  lemma EolTail(q: nat)
    requires 1 <= q <= 8
    ensures EolBits(0)[12 - q..] == Zeros(q - 1) + [1]
  {
  }

  lemma EolSplit(q: nat)
    requires 1 <= q <= 7
    ensures EolBits(0) == Zeros(12 - q) + (Zeros(q - 1) + [1])
    ensures Zeros(12 - q) + (Zeros(7) + [1]) == EolBits(8 - q)
  {
  }

  lemma Reassociate(bytes: seq<bit>, pending: seq<bit>, before: seq<bit>, a: seq<bit>, b: seq<bit>)
    requires bytes + pending == before + (a + pending)
    ensures bytes + b == before + (a + b)
  {
    assert before + (a + pending) == (before + a) + pending;
    SameSuffix(bytes, before + a, pending);
  }

  /** What flushing with nothing to flush leaves: FILL in the last EOL, or a stray byte after it. */
  lemma FlushedPage(bytes: seq<bit>, pending: seq<bit>, base: seq<bit>, lines: seq<seq<nat>>, fs: seq<nat>, x: nat)
    returns (fills: seq<nat>, tail: seq<bit>)
    requires |pending| <= 7 && pending == ToBits(x, |pending|) && ToBits(x, EOLBITS) == ToBits(EOLCODE, EOLBITS)
    requires |fs| == |lines| && bytes + pending == base + LinesBits(lines + [[]], fs + [0])
    ensures |fills| == |lines| + 1 && fills[..|lines|] == fs
    ensures bytes + ToBits(x % 256, 8) == base + (LinesBits(lines + [[]], fills) + tail)
  {
    hide LineBits, LinesBits, EolBits, ToBits, Zeros;
    var q, ls := |pending|, LinesBits(lines, fs);
    AfterEol(x, 8);
    if q == 0 {
      fills, tail := fs + [0], ToBits(x % 256, 8);
      assert bytes + tail == bytes + pending + tail;
      assert base + (LinesBits(lines + [[]], fills) + tail) == base + LinesBits(lines + [[]], fills) + tail;
    } else {
      fills, tail := fs + [8 - q], [];
      AfterEol(x, q);
      EolSplit(q);
      LastFill(lines, fs, 0);
      assert base + (ls + EolBits(0)) == (base + ls) + (Zeros(12 - q) + pending);
      Reassociate(bytes, pending, base + ls, Zeros(12 - q), ToBits(x % 256, 8));
      LastFill(lines, fs, 8 - q);
      assert (base + ls) + EolBits(8 - q) == base + (ls + EolBits(8 - q) + tail);
    }
  }

  lemma NoBytes()
    ensures BytesToBits([]) == []
  {
  }

  /** The lines of a page ended by five EOLs. */
  lemma RtcLines(written: seq<seq<nat>>, lines: seq<seq<nat>>)
    requires lines == [[]] + written + Copies([], RTCEOL)
    ensures var most := [[]] + written + Copies([], 4);
      lines == PageLines(written) && lines == most + [[]] && NoFill(|lines|) == NoFill(|most|) + [0]
  {
  }

  lemma NoRuns()
    ensures LineBits(White, []) == []
  {
  }

  lemma SameSuffix(a: seq<bit>, b: seq<bit>, s: seq<bit>)
    requires a + s == b + s
    ensures a == b
  {
    assert |a| == |b|;
    assert (a + s)[..|a|] == a && (b + s)[..|b|] == b;
  }

  lemma LowBits(x: nat, n: nat, m: nat)
    requires m <= n
    ensures ToBits(x, m) == ToBits(x, n)[n - m..]
  {
    ToBitsSplit(x, n - m, m);
  }

  lemma LastFill(lines: seq<seq<nat>>, fills: seq<nat>, k: nat)
    requires |fills| == |lines|
    ensures LinesBits(lines + [[]], fills + [k]) == LinesBits(lines, fills) + EolBits(k)
  {
    hide EolBits, LinesBits, LineBits;
    LinesSnoc(lines, fills, [], k);
    NoRuns();
    assert [] + EolBits(k) == EolBits(k);
  }

  class OFile {
    const enc: Encoder
    const pattern: bool            // a file name pattern is set: each page gets its own file
    var open: bool                 // a page has been begun
    var out: seq<byte>             // the current file
    var files: seq<seq<byte>>      // files finished before it
    var h: int                     // lines in the current page
    var bytes: int
    ghost var base: seq<bit>       // what the current file held when the page was begun
    ghost var start: nat           // where in the file the page begins
    ghost var written: seq<seq<nat>>
    ghost var finished: seq<byte>  // the file of the last page ended

    /** All bits accepted for the current file. */
    function Bits(): seq<bit>
      requires enc.Valid()
      reads this, enc
    {
      BytesToBits(out) + enc.Pending()
    }

    ghost predicate Valid()
      reads this, enc
    {
      && enc.Valid()
      && (open ==> start <= |out| && base == BytesToBits(out[..start]))
      && (open ==> Bits() == base + LinesBits([[]] + written, NoFill(|written| + 1)) && h == |written|)
      && (!open ==> enc.Pending() == [])
    }

    constructor (pattern: bool)
      ensures Valid() && !open && files == [] && fresh(enc) && this.pattern == pattern
    {
      this.pattern := pattern;
      enc := new Encoder();
      open, out, files, h, bytes := false, [], [], 0, 0;
      base, start, written, finished := [], 0, [], [];
      new;
    }

    /** Append one EOL to buf. */
    method PutEol(buf: seq<byte>) returns (r: seq<byte>)
      requires enc.Valid()
      modifies enc
      ensures enc.Valid() && buf <= r
      ensures BytesToBits(r) + enc.Pending() == BytesToBits(buf) + old(enc.Pending()) + EolBits(0)
      ensures ToBits(enc.x, EOLBITS) == ToBits(EOLCODE, EOLBITS)
    {
      EolIsCode();
      assert EOLCODE < Pow2(EOLBITS) by { Pow2Values(); }
      r := enc.PutCode(EOLCODE, EOLBITS, buf);
    }

    /** Terminate the page: five EOLs and a flush. */
    method EndPage() returns (nb: nat, ghost fills: seq<nat>, ghost tail: seq<bit>)
      requires Valid() && open
      modifies this`out, this`bytes, this`open, enc
      ensures Valid() && !open
      ensures |fills| == |written| + 6
      ensures BytesToBits(out) == base + (LinesBits(PageLines(written), fills) + tail)
      ensures old(out) <= out
    {
      hide LinesBits, EolBits, ToBits, BytesToBits;
      NoBytes();
      var codes := [];
      var i := 0;
      ghost var lines := [[]] + written;
      while i < RTCEOL
        invariant 0 <= i <= RTCEOL && enc.Valid() && |lines| == |written| + 1 + i && out == old(out)
        invariant lines == [[]] + written + Copies([], i)
        invariant BytesToBits(out) + (BytesToBits(codes) + enc.Pending()) == base + LinesBits(lines, NoFill(|lines|))
        invariant i > 0 ==> ToBits(enc.x, EOLBITS) == ToBits(EOLCODE, EOLBITS)
      {
        ghost var pending := BytesToBits(codes) + enc.Pending();
        codes := PutEol(codes);
        MoreEol(base, lines, BytesToBits(out), pending);
        lines := lines + [[]];
        i := i + 1;
      }
      ghost var most := [[]] + written + Copies([], 4);
      RtcLines(written, lines);
      BytesConcat(out, codes);
      Associate(BytesToBits(out), BytesToBits(codes), enc.Pending());
      fills, tail := FlushedPage(BytesToBits(out + codes), enc.Pending(), base, most, NoFill(|most|), enc.x);
      ghost var x := enc.x;
      BytesSnoc(out + codes, x % 256);
      codes := enc.PutNothing(codes);
      nb := |codes|;
      assert out + codes == (out + codes[..nb - 1]) + [x % 256];
      StartKept(out, codes, 0);
      out := out + codes;
      bytes := bytes + nb;
      open := false;
    }

    /** Begin a page: in a new file if there is a name pattern, else after what was written. */
    method BeginPage()
      requires Valid() && !open
      modifies this`out, this`files, this`open, this`h, this`bytes, this`base, this`start, this`written, enc
      ensures Valid() && open && written == [] && h == 0
      ensures pattern && old(out) != [] ==> files == old(files) + [old(out)] && start == 0
      ensures !pattern || old(out) == [] ==> files == old(files) && start == |old(out)| && old(out) <= out
    {
      hide EolBits, ToBits, LinesBits, BytesToBits;
      NoBytes();
      if pattern && out != [] {
        files := files + [out];
        out := [];
      }
      base, start := BytesToBits(out), |out|;
      written := [];
      var codes := PutEol([]);
      assert [] + [] + EolBits(0) == EolBits(0);
      Associate(base, BytesToBits(codes), enc.Pending());
      BytesConcat(out, codes);
      StartKept(out, codes, start);
      assert out[..start] == out;
      out := out + codes;
      FirstEol(base);
      open, h, bytes := true, 0, |codes|;
    }

    /**
     End the current page, if any, and begin page `page` unless it is negative.
     A page that was ended reads back as the lines that were written to it, from where it begins in its file.
     */
    method NextOPage(page: int)
      requires Valid()
      modifies this`out, this`files, this`open, this`h, this`bytes, enc
      modifies this`base, this`start, this`written, this`finished
      ensures Valid() && open == (page >= 0)
      ensures page >= 0 ==> written == []
      ensures old(open) && page < 0 ==> out == finished
      ensures old(open) && page >= 0 && pattern ==> files == old(files) + [finished] && start == 0
      ensures old(open) && page >= 0 && !pattern ==> files == old(files) && start == |finished| && finished <= out
      ensures old(open) ==> old(out) <= finished && old(start) <= |finished|
      ensures old(open) && Fitting(old(written)) ==>
        (ReadsAs(finished[old(start)..], old(written)) <==> Readable(old(written)))
    {
      hide Readable, Fitting, ReadsAs, LinesBits, EolBits, ToBits;
      var nb := 0;
      if open {
        ghost var before, fills, tail := out, [], [];
        nb, fills, tail := EndPage();
        NotEmpty(out, base, written, fills, tail);
        finished := out;
        if Fitting(written) {
          FromStart(before, out, start, LinesBits(PageLines(written), fills) + tail);
          PageReadsBack(out[start..], written, fills, tail);
        }
      }
      if page >= 0 {
        BeginPage();
      } else {
        h, bytes := 0, nb;
      }
    }

    /** Code a line and its EOL, and append them to the file. */
    method WriteOnce(runs: seq<nat>)
      requires Valid() && open && |LineBits(White, runs)| + 8 <= 8 * MAXCODES
      modifies this`out, this`h, this`bytes, this`written, enc
      ensures Valid() && open && written == old(written) + [runs]
    {
      hide LineBits, LinesBits, EolBits, ToBits;
      ghost var pending, lines := enc.Pending(), [[]] + written;
      var buf := enc.RunToCode(runs, []);
      buf := PutEol(buf);
      assert [] + pending == pending;
      NextLine(base, lines, BytesToBits(out), pending, runs);
      BytesConcat(out, buf);
      Associate(BytesToBits(out), BytesToBits(buf), enc.Pending());
      assert lines + [runs] == [[]] + (written + [runs]);
      StartKept(out, buf, start);
      out := out + buf;
      written := written + [runs];
      h := h + 1;
      bytes := bytes + |buf|;
    }

    /** Write a line `no` times. */
    method WriteLine(runs: seq<nat>, no: int)
      requires Valid() && open && |LineBits(White, runs)| + 8 <= 8 * MAXCODES
      modifies this`out, this`h, this`bytes, this`written, enc
      ensures Valid() && open
      ensures written == old(written) + Copies(runs, if no > 0 then no else 0)
    {
      hide LineBits, LinesBits, EolBits, ToBits;
      var n := no;
      ghost var k := 0;
      while n > 0
        invariant Valid() && open
        invariant k >= 0 && k == if no > 0 then no - n else 0
        invariant n >= 0 || no < 0
        invariant written == old(written) + Copies(runs, k)
      {
        WriteOnce(runs);
        n := n - 1;
        k := k + 1;
      }
    }
  }

  lemma FromStart(before: seq<byte>, file: seq<byte>, start: nat, page: seq<bit>)
    requires start <= |before| && before <= file && BytesToBits(file) == BytesToBits(before[..start]) + page
    ensures BytesToBits(file[start..]) == page
  {
    hide BytesToBits;
    assert before[..start] == file[..start] && file[..start] + file[start..] == file;
    BytesConcat(file[..start], file[start..]);
    SamePrefix(BytesToBits(file[..start]), BytesToBits(file[start..]), page);
  }

  lemma SamePrefix(s: seq<bit>, a: seq<bit>, b: seq<bit>)
    requires s + a == s + b
    ensures a == b
  {
    assert (s + a)[|s|..] == a && (s + b)[|s|..] == b;
  }

  /** What follows does not change where a page begins. */
  lemma StartKept(file: seq<byte>, more: seq<byte>, start: nat)
    requires start <= |file|
    ensures (file + more)[..start] == file[..start] && file <= file + more
  {
  }

  lemma NotEmpty(file: seq<byte>, base: seq<bit>, lines: seq<seq<nat>>, fills: seq<nat>, tail: seq<bit>)
    requires |fills| == |lines| + 6
    requires BytesToBits(file) == base + (LinesBits(PageLines(lines), fills) + tail)
    ensures file != []
  {
  }

  lemma FirstEol(base: seq<bit>)
    ensures base + LinesBits([[]] + [], NoFill(1)) == base + EolBits(0)
  {
    hide EolBits;
    AddLine([], []);
    NoRuns();
    assert [] + ([] + EolBits(0)) == EolBits(0);
  }

  /** What is appended after the pending bits is appended to the whole. */
  lemma Extend(bytes: seq<bit>, pending: seq<bit>, more: seq<bit>, base: seq<bit>, lines: seq<bit>)
    requires bytes + pending == base + lines
    ensures bytes + (pending + more) == base + (lines + more)
  {
    assert bytes + (pending + more) == (bytes + pending) + more;
    assert base + (lines + more) == (base + lines) + more;
  }

  lemma NextLine(base: seq<bit>, lines: seq<seq<nat>>, bytes: seq<bit>, pending: seq<bit>, runs: seq<nat>)
    requires bytes + pending == base + LinesBits(lines, NoFill(|lines|))
    ensures bytes + (pending + LineBits(White, runs) + EolBits(0))
         == base + LinesBits(lines + [runs], NoFill(|lines| + 1))
  {
    hide LinesBits, EolBits, LineBits;
    AddLine(lines, runs);
    Extend(bytes, pending, LineBits(White, runs) + EolBits(0), base, LinesBits(lines, NoFill(|lines|)));
    Associate(pending, LineBits(White, runs), EolBits(0));
  }

  lemma MoreEol(base: seq<bit>, lines: seq<seq<nat>>, bytes: seq<bit>, pending: seq<bit>)
    requires bytes + pending == base + LinesBits(lines, NoFill(|lines|))
    ensures bytes + (pending + EolBits(0)) == base + LinesBits(lines + [[]], NoFill(|lines| + 1))
  {
    hide LinesBits, EolBits, LineBits;
    AddLine(lines, []);
    NoRuns();
    Extend(bytes, pending, EolBits(0), base, LinesBits(lines, NoFill(|lines|)));
    assert [] + EolBits(0) == EolBits(0);
  }

  lemma Associate(a: seq<bit>, b: seq<bit>, c: seq<bit>)
    ensures a + b + c == a + (b + c)
  {
  }
}
