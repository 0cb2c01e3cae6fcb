/** Sending a page over the modem link: lines padded with FILL to a minimum length, escaped and written in chunks. */
module T4Send {
  import opened Bits
  import opened T4Tables
  import opened T4Line
  import opened T4Page
  import opened T4Writer
  import opened T4Output
  import opened Dle

  const INITIALFILL: nat := 32   // bytes of FILL before the first EOL

  /** All bits accepted for a page: bytes sent, bytes in the buffer, bits pending. */
  function Accepted(data: seq<byte>, buf: seq<byte>, pending: seq<bit>): seq<bit> {
    BytesToBits(data) + (BytesToBits(buf) + pending)
  }

  lemma AcceptMore(data: seq<byte>, buf: seq<byte>, pending: seq<bit>, buf': seq<byte>, pending': seq<bit>,
                   more: seq<bit>)
    requires BytesToBits(buf') + pending' == BytesToBits(buf) + pending + more
    ensures Accepted(data, buf', pending') == Accepted(data, buf, pending) + more
  {
    assert BytesToBits(data) + (BytesToBits(buf) + pending + more)
        == BytesToBits(data) + (BytesToBits(buf) + pending) + more;
  }

  /** Sending the buffer moves its bytes to what was sent. */
  lemma AcceptSent(data: seq<byte>, buf: seq<byte>, pending: seq<bit>)
    ensures Accepted(data + buf, [], pending) == Accepted(data, buf, pending)
  {
    BytesConcat(data, buf);
    Associate(BytesToBits(data), BytesToBits(buf), pending);
    assert BytesToBits([]) + pending == pending;
  }

  lemma EolBitsFill(k: nat)
    ensures Zeros(k) + EolBits(0) == EolBits(k)
  {
  }

  lemma MoreZeros(s: seq<bit>, k: nat)
    ensures s + Zeros(k) + Zeros(8) == s + Zeros(k + 8)
  {
  }

  lemma EscapedLast(s: seq<byte>, x: byte)
    ensures Escaped(s + [x]) == Escaped(s) + Sent(x)
  {
    assert (s + [x])[..|s|] == s;
  }

  lemma NothingWritten()
    ensures Escaped([]) == [] && Flat([]) == []
  {
  }

  lemma {:induction false} EscapedConcat(a: seq<byte>, b: seq<byte>)
    ensures Escaped(a + b) == Escaped(a) + Escaped(b)
  {
    hide Sent, Escaped;
    if b == [] {
      assert a + b == a;
      NothingWritten();
    } else {
      var u, x := b[..|b| - 1], b[|b| - 1];
      EscapedConcat(a, u);
      assert a + b == (a + u) + [x] && b == u + [x];
      EscapedLast(a + u, x);
      EscapedLast(u, x);
      Append(Escaped(a), Escaped(u), Sent(x));
    }
  }

  lemma {:induction false} FlatConcat(a: seq<seq<byte>>, b: seq<seq<byte>>)
    ensures Flat(a + b) == Flat(a) + Flat(b)
  {
    hide Flat;
    if b == [] {
      assert a + b == a;
      NothingWritten();
    } else {
      var u, x := b[..|b| - 1], b[|b| - 1];
      FlatConcat(a, u);
      assert a + b == (a + u) + [x] && b == u + [x];
      FlatSnoc(a + u, x);
      FlatSnoc(u, x);
      Append(Flat(a), Flat(u), x);
    }
  }

  /** A page on its way: the coder, what was sent so far, and the chunks it was sent in. */
  class Sender {
    const enc: Encoder
    var data: seq<byte>             // bytes given to sendbuf
    var chunks: seq<seq<byte>>      // what was written to the modem
    ghost var lines: seq<seq<nat>>
    ghost var fills: seq<nat>

    ghost predicate Valid()
      reads this, enc
    {
      && enc.Valid() && Flat(chunks) == Escaped(data)
      && |fills| == |lines| && |enc.Pending()| <= 7
    }

    /** What was accepted, with what is in the buffer, is the lines so far and k bits of FILL. */
    ghost predicate Holds(buf: seq<byte>, more: seq<bit>)
      requires enc.Valid() && |fills| == |lines|
      reads this, enc
    {
      Accepted(data, buf, enc.Pending()) == LinesBits(lines, fills) + more
    }

    constructor ()
      ensures Valid() && lines == [] && fills == [] && Holds([], []) && fresh(enc) && data == []
    {
      enc := new Encoder();
      data, chunks, lines, fills := [], [], [], [];
      new;
      NothingYet();
    }

    /** Append bytes of FILL to a line until the buffer holds minlen bytes. */
    method PadLine(p: seq<byte>, minlen: int, ghost s: seq<bit>) returns (buf: seq<byte>, ghost k: nat)
      requires Valid() && Holds(p, s)
      modifies enc
      ensures Valid() && Holds(buf, s + Zeros(k)) && |buf| >= minlen
    {
      hide LinesBits, BytesToBits, ToBits, Accepted, Flat, Escaped;
      buf, k := p, 0;
      assert s + Zeros(0) == s;
      while |buf| < minlen
        invariant Valid() && Holds(buf, s + Zeros(k))
        decreases minlen - |buf|
        modifies enc
      {
        ghost var before, pending := buf, enc.Pending();
        ZeroByte();
        buf := enc.PutCode(0, 8, buf);
        AcceptMore(data, before, pending, buf, enc.Pending(), Zeros(8));
        AppendTo(LinesBits(lines, fills), s + Zeros(k), Zeros(8));
        MoreZeros(s, k);
        Grew(before, pending, buf, enc.Pending());
        k := k + 8;
      }
    }

    /** End a line. */
    method PutEol(p: seq<byte>, ghost runs: seq<nat>, ghost k: nat) returns (buf: seq<byte>)
      requires Valid() && Holds(p, LineBits(White, runs) + Zeros(k))
      modifies enc, this`lines, this`fills
      ensures Valid() && Holds(buf, []) && lines == old(lines) + [runs] && fills == old(fills) + [k]
      ensures ToBits(enc.x, EOLBITS) == ToBits(EOLCODE, EOLBITS) && |buf| > |p|
    {
      hide LinesBits, LineBits, BytesToBits, ToBits, Accepted, Flat, Escaped, EolBits;
      ghost var pending := enc.Pending();
      EolIsCode();
      assert EOLCODE < Pow2(EOLBITS) by { Pow2Values(); }
      buf := enc.PutCode(EOLCODE, EOLBITS, p);
      AcceptMore(data, p, pending, buf, enc.Pending(), EolBits(0));
      LinesSnoc(lines, fills, runs, k);
      EolBitsFill(k);
      LineEnd(LinesBits(lines, fills), LineBits(White, runs), Zeros(k), EolBits(0));
      EolGrew(p, pending, buf, enc.Pending());
      lines, fills := lines + [runs], fills + [k];
      assert LinesBits(lines, fills) + [] == LinesBits(lines, fills);
    }

    /** Write the buffer to the modem. */
    method Flush(buf: seq<byte>, ghost more: seq<bit>)
      requires Valid() && Holds(buf, more)
      modifies this`data, this`chunks
      ensures Valid() && Holds([], more) && data == old(data) + buf
    {
      hide LinesBits, BytesToBits, ToBits, Accepted, Flat, Escaped;
      var more := SendBuf(buf);
      FlatConcat(chunks, more);
      EscapedConcat(data, buf);
      AcceptSent(data, buf, enc.Pending());
      chunks := chunks + more;
      data := data + buf;
    }

    /** Code, pad, end and send a line; the first one goes out with what precedes it. */
    method SendLine(p: seq<byte>, runs: seq<nat>, minlen: int)
      requires Valid() && Holds(p, []) && |LineBits(White, runs)| + 8 <= 8 * MAXCODES
      modifies enc, this`data, this`chunks, this`lines, this`fills
      ensures Valid() && Holds([], []) && lines == old(lines) + [runs] && old(fills) <= fills
      ensures |data| > |old(data)| + minlen && |data| > |old(data)|
    {
      hide LinesBits, LineBits, BytesToBits, ToBits, Accepted, Flat, Escaped;
      ghost var pending := enc.Pending();
      var buf := enc.RunToCode(runs, p);
      AcceptMore(data, p, pending, buf, enc.Pending(), LineBits(White, runs));
      assert LinesBits(lines, fills) + [] + LineBits(White, runs) == LinesBits(lines, fills) + LineBits(White, runs);
      ghost var k;
      buf, k := PadLine(buf, minlen, LineBits(White, runs));
      buf := PutEol(buf, runs, k);
      Flush(buf, []);
    }

    /** Send all lines, the first one with what precedes it. */
    method SendLines(first: seq<byte>, lines: seq<seq<nat>>, minlen: int) returns (p: seq<byte>, ghost ends: seq<nat>)
      requires Valid() && Holds(first, []) && this.lines == [[]] && data == []
      requires forall k :: 0 <= k < |lines| ==> |LineBits(White, lines[k])| + 8 <= 8 * MAXCODES
      modifies enc, this`data, this`chunks, this`lines, this`fills
      ensures Valid() && Holds(p, []) && this.lines == [[]] + lines
      ensures |ends| == |lines| && EndsAt(this.lines, fills, ends, minlen)
    {
      hide LinesBits, LineBits, BytesToBits, ToBits, Accepted, Flat, Escaped, EndsAt;
      p, ends := first, [];
      var n := 0;
      NoEnds(this.lines, fills, minlen);
      while n < |lines|
        invariant 0 <= n <= |lines| && Valid() && Holds(p, []) && this.lines == [[]] + lines[..n]
        invariant |ends| == n && EndsAt(this.lines, fills, ends, minlen)
        invariant |data| == if n == 0 then 0 else ends[n - 1]
        modifies enc, this`data, this`chunks, this`lines, this`fills
      {
        ghost var ls, fs := this.lines, fills;
        SendLine(p, lines[n], minlen);
        p := [];
        assert lines[..n + 1] == lines[..n] + [lines[n]];
        EndsStay(ls, fs, this.lines, fills, ends, minlen);
        SentLength(data, enc.Pending(), this.lines, fills);
        EndsMore(this.lines, fills, ends, minlen, |data|);
        ends := ends + [|data|];
        n := n + 1;
      }
      assert lines[..n] == lines;
    }
  }

  lemma EolGrew(buf: seq<byte>, pending: seq<bit>, buf': seq<byte>, pending': seq<bit>)
    requires BytesToBits(buf') + pending' == BytesToBits(buf) + pending + EolBits(0) && |pending'| <= 7
    ensures |buf'| > |buf|
  {
  }

  // ----- the pace of a page -----

  /** Byte ends[k] is the last whole byte of line k and its EOL, and each takes more than minlen bytes. */
  ghost predicate EndsAt(lines: seq<seq<nat>>, fills: seq<nat>, ends: seq<nat>, minlen: int) {
    && |lines| == |fills| > |ends|
    && (forall k {:trigger ends[k]} :: 0 <= k < |ends| ==>
          8 * ends[k] <= LineStart(lines, fills, k + 2) <= 8 * ends[k] + 7)
    && forall k :: 0 <= k < |ends| ==> Since(ends, k) > minlen
  }

  /** The bytes of line k; the first one is counted from the beginning of the page. */
  function Since(ends: seq<nat>, k: nat): int
    requires k < |ends|
  {
    var before: int := if k == 0 then 0 else ends[k - 1];
    ends[k] - before
  }

  /** Seen by the reader of the page: it is at the end of line k's EOL with byte ends[k], up to seven bits. */
  ghost predicate Paced(data: seq<byte>, ends: seq<nat>, minlen: int) {
    && (forall k {:trigger ends[k]} :: 0 <= k < |ends| ==>
          8 * ends[k] <= ReadNth(data, k + 1).end <= 8 * ends[k] + 7)
    && forall k :: 0 <= k < |ends| ==> Since(ends, k) > minlen
  }

  lemma NoEnds(lines: seq<seq<nat>>, fills: seq<nat>, minlen: int)
    requires |lines| == |fills| > 0
    ensures EndsAt(lines, fills, [], minlen)
  {
  }

  lemma StartOfLine(a: seq<seq<nat>>, fa: seq<nat>, b: seq<seq<nat>>, fb: seq<nat>, k: nat)
    requires |a| == |fa| && |b| == |fb| && k <= |a| && k <= |b| && a[..k] == b[..k] && fa[..k] == fb[..k]
    ensures LineStart(a, fa, k) == LineStart(b, fb, k)
  {
  }

  /** Later lines do not change where the earlier ones end. */
  lemma EndsStay(a: seq<seq<nat>>, fa: seq<nat>, b: seq<seq<nat>>, fb: seq<nat>, ends: seq<nat>, minlen: int)
    requires EndsAt(a, fa, ends, minlen) && a <= b && fa <= fb && |b| == |fb|
    ensures EndsAt(b, fb, ends, minlen)
  {
    hide LineStart;
    forall k {:trigger ends[k]} | 0 <= k < |ends|
      ensures 8 * ends[k] <= LineStart(b, fb, k + 2) <= 8 * ends[k] + 7
    {
      StartOfLine(a, fa, b, fb, k + 2);
    }
  }

  /** One more line, all of it sent but for seven bits at most. */
  lemma EndsMore(lines: seq<seq<nat>>, fills: seq<nat>, ends: seq<nat>, minlen: int, sent: nat)
    requires |lines| == |fills| == |ends| + 2 && EndsAt(lines, fills, ends, minlen)
    requires 8 * sent <= LineStart(lines, fills, |lines|) <= 8 * sent + 7
    requires sent as int - (if ends == [] then 0 else ends[|ends| - 1]) > minlen
    ensures EndsAt(lines, fills, ends + [sent], minlen)
  {
    hide LineStart;
    var more := ends + [sent];
    forall k {:trigger more[k]} | 0 <= k < |more|
      ensures 8 * more[k] <= LineStart(lines, fills, k + 2) <= 8 * more[k] + 7
    {
      if k < |ends| { assert more[k] == ends[k]; }
    }
    forall k | 0 <= k < |more| ensures Since(more, k) > minlen {
      if k < |ends| { assert Since(ends, k) == Since(more, k); }
    }
  }

  /** What has been sent of the lines so far. */
  lemma SentLength(data: seq<byte>, pending: seq<bit>, lines: seq<seq<nat>>, fills: seq<nat>)
    requires |fills| == |lines| && Accepted(data, [], pending) == LinesBits(lines, fills) + [] && |pending| <= 7
    ensures 8 * |data| <= LineStart(lines, fills, |lines|) <= 8 * |data| + 7
  {
    hide LinesBits;
    assert lines[..|lines|] == lines && fills[..|fills|] == fills;
  }

  lemma ReadPaced(data: seq<byte>, lines: seq<seq<nat>>, fills: seq<nat>, tail: seq<bit>, ends: seq<nat>, minlen: int)
    requires |fills| == |lines| + 6 && BytesToBits(data) == LinesBits(PageLines(lines), fills) + tail
    requires Fitting(lines) && |ends| == |lines| && EndsAt(PageLines(lines), fills, ends, minlen)
    ensures Paced(data, ends, minlen)
  {
    hide LineBits, EolBits, LinesBits, LineCodes, ClipAll, ReadNth, EolsAfter, BytesToBits, LineStart, PageLines;
    AllFit(lines);
    forall k {:trigger ends[k]} | 0 <= k < |ends| ensures 8 * ends[k] <= ReadNth(data, k + 1).end <= 8 * ends[k] + 7 {
      NthLine(data, PageLines(lines), fills, tail, k + 1);
    }
  }

  lemma NothingYet()
    ensures Accepted([], [], []) == [] && LinesBits([], []) == [] && Flat([]) == Escaped([])
  {
  }

  lemma ZeroByte()
    ensures ToBits(0, 8) == Zeros(8) && 0 < Pow2(8)
  {
    ZeroBits(8);
  }

  lemma AppendTo(a: seq<bit>, b: seq<bit>, c: seq<bit>)
    ensures a + b + c == a + (b + c)
  {
  }

  lemma LineEnd(all: seq<bit>, line: seq<bit>, zeros: seq<bit>, eol: seq<bit>)
    ensures all + (line + zeros) + eol == all + (line + (zeros + eol))
  {
  }

  lemma Grew(buf: seq<byte>, pending: seq<bit>, buf': seq<byte>, pending': seq<bit>)
    requires BytesToBits(buf') + pending' == BytesToBits(buf) + pending + Zeros(8) && |pending| <= 7 && |pending'| <= 7
    ensures |buf'| == |buf| + 1
  {
  }

  /**
   Send a page: FILL and an EOL, the lines, the five EOLs of RTC and the flush, then DLE-ETX. Every line takes more
   than minlen bytes.
   */
  method SendData(lines: seq<seq<nat>>, minlen: int)
    returns (chunks: seq<seq<byte>>, data: seq<byte>, ghost ends: seq<nat>)
    requires forall k :: 0 <= k < |lines| ==> |LineBits(White, lines[k])| + 8 <= 8 * MAXCODES
    requires Fitting(lines)
    ensures Flat(chunks) == Escaped(data) + [DLE, ETX] && (ReadsAs(data, lines) <==> Readable(lines))
    ensures |ends| == |lines| && Paced(data, ends, minlen)
  {
    hide LinesBits, LineBits, BytesToBits, ToBits, Accepted, Flat, Escaped, Readable, Fitting, ReadsAs, EolBits, EndsAt;
    hide Paced;
    var s := new Sender();
    var p;
    ghost var k;
    NoRuns();
    p, k := s.PadLine([], INITIALFILL, []);
    assert LineBits(White, []) + Zeros(k) == [] + Zeros(k);
    p := s.PutEol(p, [], k);
    p, ends := s.SendLines(p, lines, minlen);
    ghost var sent := s.fills;
    var i := 0;
    ghost var before := s.lines;
    while i < RTCEOL
      invariant 0 <= i <= RTCEOL && s.Valid() && s.Holds(p, []) && fresh(s) && fresh(s.enc)
      invariant s.lines == before + Copies([], i) && sent <= s.fills
      invariant i > 0 ==> s.fills != [] && s.fills[|s.fills| - 1] == 0
      invariant i > 0 ==> ToBits(s.enc.x, EOLBITS) == ToBits(EOLCODE, EOLBITS)
      modifies s, s.enc
    {
      assert LineBits(White, []) + Zeros(0) == [];
      p := s.PutEol(p, [], 0);
      i := i + 1;
    }
    assert s.lines == PageLines(lines);
    ghost var x, most, fs := s.enc.x, before + Copies([], 4), s.fills[..|s.fills| - 1];
    assert s.lines == most + [[]] && s.fills == fs + [0];
    ghost var bytes := s.data + p;
    BytesConcat(s.data, p);
    Associate(BytesToBits(s.data), BytesToBits(p), s.enc.Pending());
    AllAccepted(s.data, p, s.enc.Pending());
    assert LinesBits(s.lines, s.fills) + [] == [] + LinesBits(s.lines, s.fills);
    ghost var fills, tail := FlushedPage(BytesToBits(bytes), s.enc.Pending(), [], most, fs, x);
    p := s.enc.PutNothing(p);
    BytesSnoc(bytes, x % 256);
    assert s.data + p == bytes + [x % 256];
    var last := SendBuf(p);
    FlatConcat(s.chunks, last);
    EscapedConcat(s.data, p);
    chunks := s.chunks + last + [[DLE, ETX]];
    data := s.data + p;
    FlatSnoc(s.chunks + last, [DLE, ETX]);
    assert [] + (LinesBits(PageLines(lines), fills) + tail) == LinesBits(PageLines(lines), fills) + tail;
    PageReadsBack(data, lines, fills, tail);
    EndsStay(before, sent, PageLines(lines), fills, ends, minlen);
    ReadPaced(data, lines, fills, tail, ends, minlen);
  }

  lemma AllAccepted(data: seq<byte>, buf: seq<byte>, pending: seq<bit>)
    ensures Accepted(data, buf, pending) == BytesToBits(data) + (BytesToBits(buf) + pending)
  {
  }

  /** A page sent over the link, however it arrives in blocks, is received as the same lines. */
  method Transfer(lines: seq<seq<nat>>, minlen: int) returns (received: seq<byte>, end: int)
    requires forall k :: 0 <= k < |lines| ==> |LineBits(White, lines[k])| + 8 <= 8 * MAXCODES
    requires Fitting(lines)
    ensures end == -2 && (ReadsAs(received, lines) <==> Readable(lines))
  {
    hide LineBits, Readable, Fitting, ReadsAs, Escaped, Flat;
    var chunks, data;
    ghost var ends;
    chunks, data, ends := SendData(lines, minlen);
    assert chunks[0..] == chunks && chunks[..0] == [];
    FlatIsJoined(chunks, 0);
    NothingWritten();
    var blocks := NonEmpty(chunks);
    var f := new TFile(blocks, false);
    assert f.Remaining() == Escaped(data) + [DLE, ETX] + [];
    received, end := f.ReadData(data, []);
  }

  /** The chunks that hold anything, as reads would return them. */
  method NonEmpty(chunks: seq<seq<byte>>) returns (blocks: seq<seq<byte>>)
    ensures Joined(blocks) == Joined(chunks) && forall k :: 0 <= k < |blocks| ==> blocks[k] != []
  {
    blocks := [];
    var n := |chunks|;
    assert chunks[n..] == [];
    while n > 0
      invariant 0 <= n <= |chunks| && Joined(blocks) == Joined(chunks[n..])
      invariant forall k :: 0 <= k < |blocks| ==> blocks[k] != []
    {
      n := n - 1;
      assert chunks[n..][1..] == chunks[n + 1..];
      if chunks[n] != [] {
        blocks := [chunks[n]] + blocks;
        assert blocks[1..] == blocks[1..];
      }
    }
    assert chunks[0..] == chunks;
  }
}
