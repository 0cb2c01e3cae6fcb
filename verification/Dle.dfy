/** Data on the modem link: bit order, escaping, chunks for writing, and reading back. */
module Dle {
  import opened Bits
  import opened BitOrder

  const DLE: byte := 16
  const ETX: byte := 3
  const SUB: byte := 26
  const MINWRITE: nat := 64

  /** One data byte as it is sent. */
  function Sent(d: byte): (s: seq<byte>)
    ensures 1 <= |s| <= 2
  {
    var c := NormalBits(d);
    if c == DLE then [DLE, c] else [c]
  }

  function Escaped(data: seq<byte>): seq<byte> {
    if data == [] then [] else Escaped(data[..|data| - 1]) + Sent(data[|data| - 1])
  }

  function Flat(chunks: seq<seq<byte>>): seq<byte> {
    if chunks == [] then [] else Flat(chunks[..|chunks| - 1]) + chunks[|chunks| - 1]
  }

  lemma EscapedSnoc(data: seq<byte>, n: nat)
    requires n < |data|
    ensures Escaped(data[..n + 1]) == Escaped(data[..n]) + Sent(data[n])
  {
    assert data[..n + 1][..n] == data[..n];
  }

  lemma FlatSnoc(chunks: seq<seq<byte>>, c: seq<byte>)
    ensures Flat(chunks + [c]) == Flat(chunks) + c
  {
    assert (chunks + [c])[..|chunks|] == chunks;
  }

  /** Send data: the chunks written are the escaped data in order, none longer than the buffer. */
  method SendBuf(data: seq<byte>) returns (chunks: seq<seq<byte>>)
    ensures Flat(chunks) == Escaped(data)
    ensures forall k :: 0 <= k < |chunks| ==> 1 <= |chunks[k]| <= MINWRITE + 1
    ensures forall k :: 0 <= k < |chunks| - 1 ==> MINWRITE <= |chunks[k]|
  {
    hide NormalBits, Sent, Flat, Escaped;
    NothingSent();
    var buf := new byte[MINWRITE + 1];
    chunks := [];
    var i, n := 0, |data|;
    assert data[..0] == [] && buf[..0] == [];
    while n > 0
      invariant 0 <= n <= |data| && 0 <= i < MINWRITE && (n == 0 ==> i == 0)
      invariant Flat(chunks) + buf[..i] == Escaped(data[..|data| - n])
      invariant forall k :: 0 <= k < |chunks| ==> 1 <= |chunks[k]| <= MINWRITE + 1
      invariant forall k :: 0 <= k < |chunks| ==> MINWRITE <= |chunks[k]| || (k == |chunks| - 1 && n == 0)
    {
      ghost var before := buf[..i];
      var at := |data| - n;
      var c := NormalBits(data[at]);
      if c == DLE {
        buf[i] := DLE;
        i := i + 1;
      }
      buf[i] := c;
      i := i + 1;
      SentIs(data[at]);
      assert buf[..i] == before + Sent(data[at]);
      OneMore(chunks, before, buf[..i], data, at);
      n := n - 1;
      if i >= MINWRITE || n == 0 {
        NewChunk(chunks, buf[..i]);
        chunks := chunks + [buf[..i]];
        i := 0;
        assert buf[..0] == [];
      }
    }
    assert data[..|data|] == data;
  }

  lemma OneMore(chunks: seq<seq<byte>>, before: seq<byte>, after: seq<byte>, data: seq<byte>, at: nat)
    requires at < |data| && Flat(chunks) + before == Escaped(data[..at]) && after == before + Sent(data[at])
    ensures Flat(chunks) + after == Escaped(data[..at + 1])
  {
    hide Sent, Flat, Escaped;
    EscapedSnoc(data, at);
    Append(Flat(chunks), before, Sent(data[at]));
  }

  lemma NewChunk(chunks: seq<seq<byte>>, c: seq<byte>)
    ensures Flat(chunks + [c]) + [] == Flat(chunks) + c
  {
    FlatSnoc(chunks, c);
  }

  lemma NothingSent()
    ensures Flat([]) == [] && Escaped([]) == []
  {
  }

  lemma SentIs(d: byte)
    ensures Sent(d) == if NormalBits(d) == DLE then [DLE, NormalBits(d)] else [NormalBits(d)]
  {
  }

  lemma Append(a: seq<byte>, b: seq<byte>, c: seq<byte>)
    ensures a + (b + c) == a + b + c
  {
  }

  // ----- reading -----

  /** The modem's bytes as the reader finds them: block by block, then nothing. */
  class TFile {
    var ibuf: seq<byte>
    var ip: nat
    var blocks: seq<seq<byte>>   // what reads will return
    const reverse: bool          // the modem sends bits in the opposite order

    ghost predicate Valid()
      reads this
    {
      ip <= |ibuf| && forall k :: 0 <= k < |blocks| ==> blocks[k] != []
    }

    /** The bytes not read yet. */
    ghost function Remaining(): seq<byte>
      requires Valid()
      reads this
    {
      ibuf[ip..] + Joined(blocks)
    }

    constructor (blocks: seq<seq<byte>>, reverse: bool)
      requires forall k :: 0 <= k < |blocks| ==> blocks[k] != []
      ensures Valid() && Remaining() == Joined(blocks) && this.reverse == reverse
    {
      ibuf, ip, this.blocks, this.reverse := [], 0, blocks, reverse;
    }

    /** The next byte, or -1 when no more come. */
    method Getc() returns (c: int)
      requires Valid()
      modifies this
      ensures Valid()
      ensures old(Remaining()) == [] ==> c == -1 && Remaining() == []
      ensures old(Remaining()) != [] ==> c == old(Remaining())[0] && Remaining() == old(Remaining())[1..]
    {
      hide Joined;
      NextBlock(ibuf, ip, blocks);
      if ip == |ibuf| {
        if |blocks| == 0 { return -1; }
        ibuf, ip, blocks := blocks[0], 0, blocks[1..];
      }
      c := ibuf[ip];
      NextByte(ibuf, ip, Joined(blocks));
      ip := ip + 1;
    }

    function InOrder(c: byte): byte {
      if reverse then c else NormalBits(c)
    }

    /** The next data byte; -2 at DLE-ETX, -1 when no more come, 0 for an invalid escape. */
    method Getd() returns (c: int)
      requires Valid()
      modifies this
      ensures Valid()
      ensures var s := old(Remaining());
        && (s == [] || s == [DLE] ==> c == -1 || (s == [DLE] && c == 0))
        && (s != [] && s[0] != DLE ==> c == InOrder(s[0]) && Remaining() == s[1..])
        && (|s| >= 2 && s[0] == DLE ==> Remaining() == s[2..])
        && (|s| >= 2 && s[0] == DLE ==>
             c == if s[1] == ETX then -2 else if s[1] == DLE || s[1] == SUB then InOrder(DLE) else 0)
    {
      c := Getc();
      if c < 0 {
        c := -1;
      } else if c != DLE {
        c := InOrder(c);
      } else {
        c := Getc();
        if c == ETX {
          c := -2;
        } else if c == DLE || c == SUB {
          c := InOrder(DLE);
        } else {
          c := 0;
        }
      }
    }

    /** Read data up to its end. */
    method ReadData(ghost data: seq<byte>, ghost rest: seq<byte>) returns (got: seq<byte>, end: int)
      requires Valid() && Remaining() == Escaped(data) + [DLE, ETX] + rest
      modifies this
      ensures Valid() && got == Ordered(data, reverse) && end == -2 && Remaining() == rest
    {
      hide NormalBits, Sent, Ordered;
      NothingOrdered(data, reverse);
      got := [];
      ghost var n := 0;
      NothingEscaped(data);
      while true
        invariant Valid() && 0 <= n <= |data| && got == Ordered(data[..n], reverse)
        invariant Remaining() == EscapedFrom(data, n) + [DLE, ETX] + rest
        decreases |data| - n
      {
        EscapedNext(data, n, rest);
        var c := Getd();
        if n < |data| { NormalBitsInvolution(data[n]); }
        if c < 0 {
          end := c;
          assert data[..n] == data;
          break;
        }
        OrderedNext(data, n, reverse);
        got := got + [c];
        n := n + 1;
      }
    }
  }

  lemma NextBlock(buf: seq<byte>, n: nat, blocks: seq<seq<byte>>)
    requires n <= |buf|
    ensures n == |buf| ==>
      buf[n..] + Joined(blocks) == if blocks == [] then [] else blocks[0][0..] + Joined(blocks[1..])
  {
    assert n == |buf| ==> buf[n..] + Joined(blocks) == Joined(blocks);
    assert blocks != [] ==> blocks[0][0..] == blocks[0];
  }

  lemma NextByte(buf: seq<byte>, n: nat, rest: seq<byte>)
    requires n < |buf|
    ensures var s := buf[n..] + rest; s != [] && s[0] == buf[n] && s[1..] == buf[n + 1..] + rest
  {
  }

  /** Data as they arrive: in the order sent, or with the bits of every byte reversed. */
  function Ordered(data: seq<byte>, reverse: bool): (r: seq<byte>)
    ensures |r| == |data|
  {
    if reverse then NormalBytes(data) else data
  }

  lemma NothingOrdered(data: seq<byte>, reverse: bool)
    ensures Ordered(data[..0], reverse) == []
  {
  }

  lemma OrderedNext(data: seq<byte>, n: nat, reverse: bool)
    requires n < |data|
    ensures Ordered(data[..n + 1], reverse)
         == Ordered(data[..n], reverse) + [if reverse then NormalBits(data[n]) else data[n]]
  {
    hide NormalBits;
  }

  function Joined(blocks: seq<seq<byte>>): seq<byte> {
    if blocks == [] then [] else blocks[0] + Joined(blocks[1..])
  }

  /** The escaped data from byte n on. */
  function EscapedFrom(data: seq<byte>, n: nat): seq<byte>
    requires n <= |data|
    decreases |data| - n
  {
    if n == |data| then [] else Sent(data[n]) + EscapedFrom(data, n + 1)
  }

  lemma {:induction false} EscapedSplit(data: seq<byte>, n: nat)
    requires n <= |data|
    ensures Escaped(data) == Escaped(data[..n]) + EscapedFrom(data, n)
    decreases |data| - n
  {
    hide Sent;
    if n == |data| {
      assert data[..n] == data && Escaped(data) + [] == Escaped(data);
    } else {
      EscapedSplit(data, n + 1);
      EscapedSnoc(data, n);
      Append(Escaped(data[..n]), Sent(data[n]), EscapedFrom(data, n + 1));
    }
  }

  lemma NothingEscaped(data: seq<byte>)
    ensures EscapedFrom(data, 0) == Escaped(data)
  {
    EscapedSplit(data, 0);
    assert data[..0] == [];
    assert [] + EscapedFrom(data, 0) == EscapedFrom(data, 0);
  }

  /** What the reader sees at byte n: an escaped byte, or the end. */
  lemma EscapedNext(data: seq<byte>, n: nat, rest: seq<byte>)
    requires n <= |data|
    ensures var s := EscapedFrom(data, n) + [DLE, ETX] + rest;
      if n == |data| then |s| >= 2 && s[0] == DLE && s[1] == ETX && s[2..] == rest
      else
        var c, more := NormalBits(data[n]), EscapedFrom(data, n + 1) + [DLE, ETX] + rest;
        if c == DLE then |s| >= 2 && s[0] == DLE && s[1] == DLE && s[2..] == more else s[0] == c && s[1..] == more
  {
    hide NormalBits;
    if n < |data| {
      SentIs(data[n]);
      var more := EscapedFrom(data, n + 1) + [DLE, ETX] + rest;
      assert EscapedFrom(data, n) + [DLE, ETX] + rest == Sent(data[n]) + more;
    }
  }

  lemma {:induction false} FlatIsJoined(chunks: seq<seq<byte>>, n: nat)
    requires n <= |chunks|
    ensures |Flat(chunks[..n])| <= |Flat(chunks)|
    ensures Joined(chunks[n..]) == Flat(chunks)[|Flat(chunks[..n])|..]
    decreases |chunks| - n
  {
    if n == |chunks| {
      assert chunks[..n] == chunks && chunks[n..] == [];
    } else {
      FlatIsJoined(chunks, n + 1);
      assert chunks[..n + 1][..n] == chunks[..n] && chunks[n..][1..] == chunks[n + 1..];
      FlatPrefix(chunks, n + 1);
    }
  }

  lemma {:induction false} FlatPrefix(chunks: seq<seq<byte>>, n: nat)
    requires n <= |chunks|
    ensures Flat(chunks[..n]) <= Flat(chunks)
  {
    if n == |chunks| {
      assert chunks[..n] == chunks;
    } else {
      FlatPrefix(chunks[..|chunks| - 1], n);
      assert chunks[..|chunks| - 1][..n] == chunks[..n];
    }
  }

  lemma SameOrder(data: seq<byte>)
    ensures NormalBytes(data) == data <==> forall k :: 0 <= k < |data| ==> Palindrome(data[k])
  {
    hide NormalBits, Palindrome;
    forall k | 0 <= k < |data| ensures NormalBytes(data)[k] == data[k] <==> Palindrome(data[k]) {
      PalindromeStays(data[k]);
    }
  }

  /**
   Sent in chunks and ended by DLE-ETX, data come back, and then -2, if the modem does not reverse the order of bits
   or every byte reads the same in both directions; and only then.
   */
  method Loopback(data: seq<byte>, reverse: bool) returns (got: seq<byte>, end: int)
    ensures end == -2 && got == Ordered(data, reverse)
    ensures got == data <==> !reverse || forall k :: 0 <= k < |data| ==> Palindrome(data[k])
  {
    var chunks := SendBuf(data);
    var all := chunks + [[DLE, ETX]];
    FlatSnoc(chunks, [DLE, ETX]);
    FlatIsJoined(all, 0);
    assert all[0..] == all && all[..0] == [];
    var f := new TFile(all, reverse);
    assert f.Remaining() == Escaped(data) + [DLE, ETX] + [];
    got, end := f.ReadData(data, []);
    SameOrder(data);
  }

  /** With the reversing modem even one byte does not survive: 1 comes back as 128. */
  lemma OneReversed()
    ensures Ordered([1], true) == [128]
  {
  }
}
