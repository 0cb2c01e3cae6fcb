/** Asynchronous serial words on a bit stream: start bit, data, optional parity, stop bit. */
module Serial {
  import opened Bits
  import opened LmFifo

  /** 5 to 8 data bits; parity even, odd or none. */
  datatype Config = Config(dataBits: nat, useParity: bool, odd: bool)

  predicate ConfigOk(c: Config) {
    5 <= c.dataBits <= 8
  }

  function WordSize(c: Config): nat {
    c.dataBits + 2 + if c.useParity then 1 else 0
  }

  function XorBit(a: bit, b: bit): bit {
    if a == b then 0 else 1
  }

  /** Exclusive or of all bits, starting from p. */
  function Xor(p: bit, s: seq<bit>): bit {
    if s == [] then p else XorBit(Xor(p, s[..|s| - 1]), s[|s| - 1])
  }

  function Start(c: Config): bit {
    if c.odd then 1 else 0
  }

  /** Data and parity bits of a byte. */
  function Middle(c: Config, d: byte): (w: seq<bit>)
    requires ConfigOk(c)
    ensures |w| == WordSize(c) - 2
  {
    var data := ToBits(d, c.dataBits);
    if c.useParity then data + [Xor(Start(c), data)] else data
  }

  /** A byte as it is sent. */
  function Word(c: Config, d: byte): (w: seq<bit>)
    requires ConfigOk(c)
    ensures |w| == WordSize(c)
  {
    [0] + Middle(c, d) + [1]
  }

  predicate Fits(c: Config, d: byte) {
    ConfigOk(c) && d < Pow2(c.dataBits)
  }

  // ----- the receiver -----

  datatype Rx = Rx(buf: nat, cnt: nat, out: seq<byte>)

  /** What a framed word delivers. */
  function Deliver(c: Config, window: nat, out: seq<byte>): seq<byte>
    requires ConfigOk(c)
  {
    DeliverData(c, window / 2, out)
  }

  /** Data bits, with the parity bit last if there is one. */
  function DeliverData(c: Config, data: nat, out: seq<byte>): seq<byte>
    requires ConfigOk(c)
  {
    if !c.useParity then out + [data % 256]
    else if Xor(Start(c), ToBits(data, c.dataBits + 1)) == 0 then out + [data / 2 % 256]
    else out
  }

  /** One received bit. */
  function PutRx(c: Config, r: Rx, b: bit): Rx
    requires ConfigOk(c)
  {
    var buf := (2 * r.buf + b) % 0x1_0000_0000;
    if r.cnt >= WordSize(c) - 1 then
      var window := buf % Pow2(WordSize(c));
      if window < Pow2(WordSize(c) - 1) && window % 2 == 1 then
        Rx(buf, 0, Deliver(c, window, r.out))
      else
        r.(buf := buf)
    else
      r.(buf := buf, cnt := r.cnt + 1)
  }

  function Feed(c: Config, r: Rx, s: seq<bit>): Rx
    requires ConfigOk(c)
  {
    if s == [] then r else PutRx(c, Feed(c, r, s[..|s| - 1]), s[|s| - 1])
  }

  lemma FeedSnoc(c: Config, r: Rx, s: seq<bit>, b: bit)
    requires ConfigOk(c)
    ensures Feed(c, r, s + [b]) == PutRx(c, Feed(c, r, s), b)
  {
    assert (s + [b])[..|s|] == s;
  }

  lemma {:induction false} FeedConcat(c: Config, r: Rx, s: seq<bit>, t: seq<bit>)
    requires ConfigOk(c)
    ensures Feed(c, r, s + t) == Feed(c, Feed(c, r, s), t)
  {
    hide PutRx;
    if t == [] {
      assert s + t == s;
    } else {
      var u, b := t[..|t| - 1], t[|t| - 1];
      FeedConcat(c, r, s, u);
      assert s + t == (s + u) + [b];
      FeedSnoc(c, r, s + u, b);
    }
  }

  // ----- the window as bits -----

  /** The register ends in these bits. */
  ghost predicate Ends(buf: nat, h: seq<bit>) {
    |h| <= 31 && buf % Pow2(|h|) == Val(h)
  }

  lemma EndsNext(buf: nat, h: seq<bit>, b: bit)
    requires Ends(buf, h) && |h| <= 30
    ensures Ends((2 * buf + b) % 0x1_0000_0000, h + [b])
  {
    var p := Pow2(|h|);
    assert Pow2(32) == 0x1_0000_0000 by { Pow2Values(); Pow2Add(8, 8); Pow2Add(16, 16); }
    Pow2Add(|h| + 1, 32 - (|h| + 1));
    MulCommutes(Pow2(|h| + 1), Pow2(32 - (|h| + 1)));
    ModDivides(2 * buf + b, Pow2(|h| + 1), Pow2(32 - (|h| + 1)));
    DivModPow2(2 * buf + b, |h| + 1);
    ValSnoc(h, b);
  }

  lemma MulCommutes(a: nat, b: nat)
    ensures a * b == b * a
  {
  }

  lemma EndsSuffix(buf: nat, a: seq<bit>, h: seq<bit>)
    requires Ends(buf, a + h)
    ensures Ends(buf, h)
  {
    var p, q := Pow2(|a|), Pow2(|h|);
    Pow2Add(|a|, |h|);
    ModDivides(buf, q, p);
    ValConcat(a, h);
    DivModUnique(Val(a + h), q, Val(a), Val(h));
  }

  lemma FirstBit(s: seq<bit>)
    requires s != []
    ensures Val(s) < Pow2(|s| - 1) <==> s[0] == 0
    ensures Val(s) % 2 == s[|s| - 1]
  {
    hide Val, Pow2;
    var rest := s[1..];
    assert s == [s[0]] + rest;
    ValConcat([s[0]], rest);
    ValOne(s[0]);
    BitTimes(s[0], Pow2(|rest|));
    var init := s[..|s| - 1];
    assert s == init + [s[|s| - 1]];
    ValSnoc(init, s[|s| - 1]);
  }

  lemma BitTimes(b: bit, p: nat)
    ensures b * p == if b == 0 then 0 else p
  {
  }

  lemma ValOne(b: bit)
    ensures Val([b]) == b
  {
    assert [b] == [] + [b];
    ValSnoc([], b);
  }

  /** One bit more, with the last WordSize bits known: framed exactly if they begin with 0 and end with 1. */
  lemma PutWindow(c: Config, r: Rx, h: seq<bit>, b: bit)
    requires ConfigOk(c) && Ends(r.buf, h) && |h| == WordSize(c) - 1 && r.cnt >= WordSize(c) - 1
    ensures var w := h + [b]; var f := PutRx(c, r, b);
      && Ends(f.buf, w)
      && f == if w[0] == 0 && b == 1 then Rx(f.buf, 0, Deliver(c, Val(w), r.out)) else r.(buf := f.buf)
  {
    hide Deliver, Val;
    EndsNext(r.buf, h, b);
    FirstBit(h + [b]);
  }

  lemma PutShort(c: Config, r: Rx, h: seq<bit>, b: bit)
    requires ConfigOk(c) && Ends(r.buf, h) && |h| <= 30 && r.cnt < WordSize(c) - 1
    ensures var f := PutRx(c, r, b); Ends(f.buf, h + [b]) && f == r.(buf := f.buf, cnt := r.cnt + 1)
  {
    hide Deliver, Val;
    EndsNext(r.buf, h, b);
  }

  function Ones(n: nat): (s: seq<bit>)
    ensures |s| == n && forall i :: 0 <= i < n ==> s[i] == 1
  {
    seq(n, _ => 1)
  }

  /** Between words: only ones since the last, as far as that matters. */
  ghost predicate Ready(c: Config, r: Rx) {
    ConfigOk(c) && r.cnt <= WordSize(c) - 1 && Ends(r.buf, Ones(r.cnt))
  }

  /** An idle one. */
  lemma FeedIdle(c: Config, r: Rx)
    requires Ready(c, r)
    ensures Ready(c, PutRx(c, r, 1)) && PutRx(c, r, 1).out == r.out
  {
    hide Ends, PutRx, Deliver;
    assert Ones(r.cnt) + [1] == Ones(r.cnt + 1);
    if r.cnt < WordSize(c) - 1 {
      PutShort(c, r, Ones(r.cnt), 1);
    } else {
      PutWindow(c, r, Ones(r.cnt), 1);
      assert Ones(r.cnt + 1) == [1] + Ones(r.cnt);
      EndsSuffix(PutRx(c, r, 1).buf, [1], Ones(r.cnt));
    }
  }

  /** The count of bits, as far as the receiver counts. */
  function Counted(c: Config, n: nat): nat {
    if n < WordSize(c) - 1 then n else WordSize(c) - 1
  }

  /** The beginning of a word, after ones: nothing is framed. */
  lemma {:induction false} FeedPart(c: Config, r: Rx, w: seq<bit>)
    requires Ready(c, r) && |w| < WordSize(c)
    ensures var f := Feed(c, r, w);
      f.cnt == Counted(c, r.cnt + |w|) && f.out == r.out && Ends(f.buf, Ones(r.cnt) + w)
  {
    hide Ends, PutRx, Deliver;
    if w == [] {
      assert Ones(r.cnt) + w == Ones(r.cnt);
    } else {
      var n := |w| - 1;
      var u, b := w[..n], w[n];
      FeedPart(c, r, u);
      var f, h := Feed(c, r, u), Ones(r.cnt) + u;
      assert w == u + [b] && Ones(r.cnt) + w == h + [b];
      if f.cnt < WordSize(c) - 1 {
        PutShort(c, f, h, b);
      } else {
        LastBits(c, r.cnt, u, f.buf, b);
        var k := r.cnt + n - (WordSize(c) - 1);
        var tail := Ones(r.cnt - k) + u;
        PutWindow(c, f, tail, b);
        assert (tail + [b])[0] == 1;
        EndsNext(f.buf, h, b);
        PutBuf(c, f, b);
      }
    }
  }

  lemma PutBuf(c: Config, r: Rx, b: bit)
    requires ConfigOk(c)
    ensures PutRx(c, r, b).buf == (2 * r.buf + b) % 0x1_0000_0000
  {
  }

  lemma LastBits(c: Config, ones: nat, u: seq<bit>, buf: nat, b: bit)
    requires ConfigOk(c) && ones <= WordSize(c) - 1 && |u| < WordSize(c) - 1 && ones + |u| >= WordSize(c) - 1
    requires Ends(buf, Ones(ones) + u)
    ensures var k := ones + |u| - (WordSize(c) - 1);
      0 <= k < ones && Ends(buf, Ones(ones - k) + u) && |Ones(ones - k) + u| == WordSize(c) - 1
  {
    var k := ones + |u| - (WordSize(c) - 1);
    assert Ones(ones) + u == Ones(k) + (Ones(ones - k) + u);
    EndsSuffix(buf, Ones(k), Ones(ones - k) + u);
  }

  /** A word with a start and a stop bit is framed, and the receiver is aligned after it. */
  lemma FeedFramed(c: Config, r: Rx, m: seq<bit>)
    requires Ready(c, r) && |m| == WordSize(c) - 2
    ensures var f := Feed(c, r, [0] + m + [1]);
      Ready(c, f) && f.out == Deliver(c, Val([0] + m + [1]), r.out)
  {
    hide Ends, PutRx, Deliver, Val;
    var u := [0] + m;
    FeedPart(c, r, u);
    FeedSnoc(c, r, u, 1);
    var f := Feed(c, r, u);
    EndsSuffix(f.buf, Ones(r.cnt), u);
    PutWindow(c, f, u, 1);
    EndsNothing(PutRx(c, f, 1).buf);
    assert Ones(0) == [];
  }

  lemma EndsNothing(buf: nat)
    ensures Ends(buf, [])
  {
  }

  // ----- what a word delivers -----

  lemma {:induction false} XorSnoc(p: bit, s: seq<bit>, b: bit)
    ensures Xor(p, s + [b]) == XorBit(Xor(p, s), b)
  {
    assert (s + [b])[..|s|] == s;
  }

  lemma {:induction false} XorFlip(p: bit, s: seq<bit>, k: nat)
    requires k < |s|
    ensures Xor(p, s[k := 1 - s[k]]) == 1 - Xor(p, s)
  {
    var n := |s| - 1;
    var t := s[k := 1 - s[k]];
    if k == n {
      assert t[..n] == s[..n];
    } else {
      XorFlip(p, s[..n], k);
      assert t[..n] == s[..n][k := 1 - s[k]];
    }
  }

  lemma ParityClears(p: bit, s: seq<bit>)
    ensures Xor(p, s + [Xor(p, s)]) == 0
  {
    XorSnoc(p, s, Xor(p, s));
  }

  /** The number between start and stop bits. */
  lemma MiddleValue(m: seq<bit>)
    ensures Val([0] + m + [1]) / 2 == Val(m)
  {
    ValSnoc([0] + m, 1);
    ValConcat([0], m);
    ValOne(0);
  }

  /** Deliver, in terms of the bits between start and stop. */
  lemma DeliverBits(c: Config, m: seq<bit>, out: seq<byte>)
    requires ConfigOk(c) && |m| == WordSize(c) - 2
    ensures Deliver(c, Val([0] + m + [1]), out) ==
      if !c.useParity then out + [Val(m) % 256]
      else if Xor(Start(c), m) == 0 then out + [Val(m[..c.dataBits]) % 256] else out
  {
    hide Xor, Val, ToBits, DeliverData;
    MiddleValue(m);
    assert Deliver(c, Val([0] + m + [1]), out) == DeliverData(c, Val(m), out);
    DataOf(c, m, out);
  }

  lemma DataOf(c: Config, m: seq<bit>, out: seq<byte>)
    requires ConfigOk(c) && |m| == WordSize(c) - 2
    ensures DeliverData(c, Val(m), out) ==
      if !c.useParity then out + [Val(m) % 256]
      else if Xor(Start(c), m) == 0 then out + [Val(m[..c.dataBits]) % 256] else out
  {
    hide Xor, Val, ToBits;
    ToBitsVal(m);
    if c.useParity {
      var data := m[..c.dataBits];
      assert m == data + [m[c.dataBits]];
      ValSnoc(data, m[c.dataBits]);
      assert Val(m) / 2 == Val(data);
    }
  }

  /** A word is delivered. */
  lemma FeedWord(c: Config, r: Rx, d: byte)
    requires Ready(c, r) && Fits(c, d)
    ensures Ready(c, Feed(c, r, Word(c, d))) && Feed(c, r, Word(c, d)).out == r.out + [d]
  {
    hide Ready, Feed, Xor, Deliver, ToBits, Val;
    var m, data := Middle(c, d), ToBits(d, c.dataBits);
    FeedFramed(c, r, m);
    DeliverBits(c, m, r.out);
    ValToBits(d, c.dataBits);
    SmallModulus(d, Pow2(c.dataBits));
    SmallModulus(d, 256);
    if c.useParity {
      ParityClears(Start(c), data);
      assert m[..c.dataBits] == data;
    }
  }

  lemma SmallModulus(v: nat, p: nat)
    requires v < p
    ensures v % p == v
  {
  }

  /** With parity, a word with one data or parity bit flipped is dropped, and only that word. */
  lemma FeedDamaged(c: Config, r: Rx, d: byte, k: nat)
    requires Ready(c, r) && Fits(c, d) && c.useParity && 1 <= k <= c.dataBits + 1
    ensures var w := Word(c, d); var f := Feed(c, r, w[k := 1 - w[k]]); Ready(c, f) && f.out == r.out
  {
    hide Ready, Feed, Xor, Deliver, ToBits, Val;
    var m, data := Middle(c, d), ToBits(d, c.dataBits);
    var bad := m[k - 1 := 1 - m[k - 1]];
    assert Word(c, d)[k := 1 - Word(c, d)[k]] == [0] + bad + [1];
    ParityClears(Start(c), data);
    XorFlip(Start(c), m, k - 1);
    FeedFramed(c, r, bad);
    DeliverBits(c, bad, r.out);
  }

  /** What may come over the line: idle ones, words, and with parity words with one data or parity bit flipped. */
  datatype Item = Idle | Whole(d: byte) | Damaged(d: byte, k: nat)

  predicate ItemOk(c: Config, it: Item) {
    match it
    case Idle => true
    case Whole(d) => Fits(c, d)
    case Damaged(d, k) => Fits(c, d) && c.useParity && 1 <= k <= c.dataBits + 1
  }

  function ItemBits(c: Config, it: Item): seq<bit>
    requires ConfigOk(c) && ItemOk(c, it)
  {
    match it
    case Idle => [1]
    case Whole(d) => Word(c, d)
    case Damaged(d, k) => Word(c, d)[k := 1 - Word(c, d)[k]]
  }

  predicate ItemsOk(c: Config, items: seq<Item>) {
    forall i :: 0 <= i < |items| ==> ItemOk(c, items[i])
  }

  function LineBits(c: Config, items: seq<Item>): seq<bit>
    requires ConfigOk(c) && ItemsOk(c, items)
  {
    if items == [] then [] else LineBits(c, items[..|items| - 1]) + ItemBits(c, items[|items| - 1])
  }

  /** The bytes of the words that were not damaged. */
  function Survivors(items: seq<Item>): seq<byte> {
    if items == [] then [] else
      var last := items[|items| - 1];
      Survivors(items[..|items| - 1]) + if last.Whole? then [last.d] else []
  }

  lemma FeedItem(c: Config, r: Rx, it: Item)
    requires ConfigOk(c) && Ready(c, r) && ItemOk(c, it)
    ensures var f := Feed(c, r, ItemBits(c, it)); Ready(c, f) && f.out == r.out + if it.Whole? then [it.d] else []
  {
    hide Ready, Word, PutRx, Feed;
    match it
    case Idle => FeedIdle(c, r); FeedOne(c, r, 1);
    case Whole(d) => FeedWord(c, r, d);
    case Damaged(d, k) => FeedDamaged(c, r, d, k);
  }

  /** Exactly the damaged words are lost, and the receiver stays aligned. */
  lemma {:induction false} OnlyDamagedLost(c: Config, r: Rx, items: seq<Item>)
    requires ConfigOk(c) && Ready(c, r) && ItemsOk(c, items)
    ensures var f := Feed(c, r, LineBits(c, items)); Ready(c, f) && f.out == r.out + Survivors(items)
  {
    hide Ready, ItemBits, PutRx, ItemOk;
    if items == [] {
      assert r.out + [] == r.out;
    } else {
      var n := |items| - 1;
      OnlyDamagedLost(c, r, items[..n]);
      FeedConcat(c, r, LineBits(c, items[..n]), ItemBits(c, items[n]));
      FeedItem(c, Feed(c, r, LineBits(c, items[..n])), items[n]);
    }
  }

  lemma FeedOne(c: Config, r: Rx, b: bit)
    requires ConfigOk(c)
    ensures Feed(c, r, [b]) == PutRx(c, r, b)
  {
    assert [b][..0] == [];
  }

  // ----- the transmitter -----

  datatype Tx = Tx(queue: seq<byte>, buf: nat, cnt: nat)

  /** The bits of a word as the transmitter's register holds them. */
  function Encoded(c: Config, d: byte): nat
    requires ConfigOk(c)
  {
    if c.useParity then 4 * d + 2 * Xor(Start(c), ToBits(d, c.dataBits)) + 1 else 2 * d + 1
  }

  /** The next bit to send, and the state after it. */
  function NextBit(c: Config, t: Tx): (r: (bit, Tx))
    requires ConfigOk(c)
  {
    if t.cnt == 0 && t.queue == [] then (1, t) else
      var loaded := if t.cnt == 0 then Tx(t.queue[1..], Encoded(c, t.queue[0]), WordSize(c)) else t;
      var n: nat := loaded.cnt - 1;
      (Shr(loaded.buf, n) % 2, loaded.(cnt := n))
  }

  /** The register holds the bits of the word. */
  lemma EncodedBits(c: Config, d: byte)
    requires Fits(c, d)
    ensures ToBits(Encoded(c, d), WordSize(c)) == Word(c, d)
  {
    hide Xor, ToBits, Pow2;
    var data := ToBits(d, c.dataBits);
    TopZero(d, c.dataBits);
    if c.useParity {
      TwoLast(d, Xor(Start(c), data), c.dataBits + 1);
      assert [0] + data + [Xor(Start(c), data)] == [0] + (data + [Xor(Start(c), data)]);
    } else {
      LastBit(2 * d + 1, c.dataBits + 2);
    }
  }

  lemma TwoLast(d: nat, p: nat, n: nat)
    requires p <= 1
    ensures ToBits(4 * d + 2 * p + 1, n + 2) == ToBits(d, n) + [p] + [1]
  {
    hide ToBits;
    LastBit(4 * d + 2 * p + 1, n + 2);
    LastBit(2 * d + p, n + 1);
  }

  lemma TopZero(d: nat, n: nat)
    requires d < Pow2(n)
    ensures ToBits(d, n + 1) == [0] + ToBits(d, n)
  {
    ToBitsSplit(d, 1, n);
    ShrDiv(d, n);
    DivModUnique(d, Pow2(n), 0, d);
    assert ToBits(0, 1) == [0] by { LastBit(0, 1); }
  }

  lemma LastBit(v: nat, n: nat)
    requires n > 0
    ensures ToBits(v, n) == ToBits(v / 2, n - 1) + [v % 2]
  {
  }

  // ----- transmitter, line and receiver together -----

  /** Events: a byte is queued, or a bit is sent and received; a bit may be flipped on the line. */
  datatype Event = Queue(d: byte) | Bit

  datatype Link = Link(tx: Tx, rx: Rx, put: seq<byte>)

  function Act(c: Config, l: Link, e: Event): Link
    requires ConfigOk(c)
  {
    match e
    case Queue(d) => l.(tx := l.tx.(queue := l.tx.queue + [d]), put := l.put + [d])
    case Bit =>
      var r := NextBit(c, l.tx);
      l.(tx := r.1, rx := PutRx(c, l.rx, r.0))
  }

  function Run(c: Config, es: seq<Event>): Link
    requires ConfigOk(c)
  {
    if es == [] then Link(Tx([], 0, 0), Rx(0, 0, []), []) else Act(c, Run(c, es[..|es| - 1]), es[|es| - 1])
  }

  predicate EventsOk(c: Config, es: seq<Event>) {
    forall i :: 0 <= i < |es| && es[i].Queue? ==> Fits(c, es[i].d)
  }

  /** Where the link is within the word of byte d: the receiver has had the word's first bits. */
  ghost predicate Inside(c: Config, l: Link, d: byte, before: Rx) {
    && Fits(c, d) && Ready(c, before) && 0 < l.tx.cnt < WordSize(c) && l.tx.buf == Encoded(c, d)
    && l.rx == Feed(c, before, Word(c, d)[..WordSize(c) - l.tx.cnt])
  }

  /** Between words all bytes are delivered or queued; inside one, that one is on the way. */
  ghost predicate LinkOk(c: Config, l: Link, d: byte, before: Rx) {
    && ConfigOk(c) && (forall i :: 0 <= i < |l.tx.queue| ==> Fits(c, l.tx.queue[i]))
    && if l.tx.cnt == 0 then Ready(c, l.rx) && l.put == l.rx.out + l.tx.queue
       else Inside(c, l, d, before) && l.put == before.out + [d] + l.tx.queue
  }

  lemma WordBit(c: Config, d: byte, n: nat)
    requires Fits(c, d) && n < WordSize(c)
    ensures Shr(Encoded(c, d), n) % 2 == Word(c, d)[WordSize(c) - 1 - n]
  {
    hide ToBits, Shr;
    EncodedBits(c, d);
    BitAt(Encoded(c, d), WordSize(c), WordSize(c) - 1 - n);
  }

  /** One more bit of the word on the way. */
  lemma BitInside(c: Config, l: Link, d: byte, before: Rx, n: nat)
    requires Fits(c, d) && Ready(c, before) && n < WordSize(c) && l.tx.buf == Encoded(c, d) && l.tx.cnt == n + 1
    requires l.rx == Feed(c, before, Word(c, d)[..WordSize(c) - (n + 1)])
    ensures var f := Act(c, l, Bit);
      && f.tx == l.tx.(cnt := n) && f.put == l.put
      && f.rx == Feed(c, before, Word(c, d)[..WordSize(c) - n])
      && (n == 0 ==> Ready(c, f.rx) && f.rx.out == before.out + [d])
  {
    hide Ready, PutRx, Word, Encoded, Shr;
    var w, k := Word(c, d), WordSize(c) - (n + 1);
    WordBit(c, d, n);
    assert w[..k + 1] == w[..k] + [w[k]];
    FeedSnoc(c, before, w[..k], w[k]);
    if n == 0 {
      assert w[..WordSize(c)] == w;
      FeedWord(c, before, d);
    }
  }

  lemma ActOk(c: Config, l: Link, e: Event, d: byte, before: Rx) returns (d': byte, before': Rx)
    requires LinkOk(c, l, d, before) && (e.Queue? ==> Fits(c, e.d))
    ensures LinkOk(c, Act(c, l, e), d', before')
  {
    hide Ready, PutRx, Word, Encoded, Feed;
    d', before' := d, before;
    match e
    case Queue(x) =>
      Associate(if l.tx.cnt == 0 then l.rx.out else before.out + [d], l.tx.queue, [x]);
    case Bit =>
      if l.tx.cnt == 0 && l.tx.queue == [] {
        FeedIdle(c, l.rx);
      } else if l.tx.cnt == 0 {
        d', before' := l.tx.queue[0], l.rx;
        var loaded := l.(tx := Tx(l.tx.queue[1..], Encoded(c, d'), WordSize(c)));
        StartWord(c, l.rx, d');
        BitInside(c, loaded, d', l.rx, WordSize(c) - 1);
        assert l.tx.queue == [d'] + l.tx.queue[1..];
        Associate(l.rx.out, [d'], l.tx.queue[1..]);
      } else {
        BitInside(c, l, d, before, l.tx.cnt - 1);
      }
  }

  lemma StartWord(c: Config, r: Rx, d: byte)
    requires ConfigOk(c)
    ensures Feed(c, r, Word(c, d)[..0]) == r
  {
  }

  lemma Associate(a: seq<byte>, b: seq<byte>, x: seq<byte>)
    ensures a + (b + x) == (a + b) + x
  {
  }

  lemma {:induction false} RunOk(c: Config, es: seq<Event>) returns (d: byte, before: Rx)
    requires ConfigOk(c) && EventsOk(c, es)
    ensures LinkOk(c, Run(c, es), d, before)
  {
    hide LinkOk, Act;
    d, before := 0, Rx(0, 0, []);
    if es == [] {
      FreshLink(c, d, before);
    } else {
      var n := |es| - 1;
      d, before := RunOk(c, es[..n]);
      d, before := ActOk(c, Run(c, es[..n]), es[n], d, before);
    }
  }

  lemma FreshLink(c: Config, d: byte, before: Rx)
    requires ConfigOk(c)
    ensures LinkOk(c, Link(Tx([], 0, 0), Rx(0, 0, []), []), d, before)
  {
    EndsNothing(0);
    assert Ones(0) == [];
  }

  /**
   Whatever the order of queueing and sending, and whatever the gaps: the bytes delivered are the first
   of those queued; between words all the others are still queued, and inside a word all but the one on the way.
   */
  lemma InOrder(c: Config, es: seq<Event>)
    requires ConfigOk(c) && EventsOk(c, es)
    ensures var l := Run(c, es);
      && l.rx.out <= l.put
      && (l.tx.cnt == 0 ==> l.put == l.rx.out + l.tx.queue)
      && (l.tx.cnt > 0 ==> |l.put| == |l.rx.out| + 1 + |l.tx.queue|)
  {
    hide Run, Feed, Ready, Word, Encoded;
    var d, before := RunOk(c, es);
    var l := Run(c, es);
    if l.tx.cnt > 0 {
      var k := WordSize(c) - l.tx.cnt;
      FeedPart(c, before, Word(c, d)[..k]);
    }
  }

  // ----- delivery -----

  /** How many of the bytes queued so far have been delivered. */
  function Delivered(l: Link): int {
    |l.put| - |l.tx.queue| - if l.tx.cnt > 0 then 1 else 0
  }

  /** How many bits until the first m bytes are delivered. */
  function Left(c: Config, l: Link, m: nat): int {
    if Delivered(l) >= m then 0 else
      l.tx.cnt + WordSize(c) * (m - Delivered(l) - if l.tx.cnt > 0 then 1 else 0)
  }

  /** Every bit brings the delivery of those m bytes nearer, and queueing more does not put it off. */
  lemma Nearer(c: Config, l: Link, e: Event, m: nat)
    requires ConfigOk(c) && m <= |l.put|
    ensures var f := Act(c, l, e);
      && l.put <= f.put && Left(c, f, m) >= 0 && Left(c, l, m) >= 0
      && Left(c, f, m) == if e.Bit? && Left(c, l, m) > 0 then Left(c, l, m) - 1 else Left(c, l, m)
  {
    hide PutRx, Encoded, Shr;
    var f, w := Act(c, l, e), WordSize(c);
    var d := m - Delivered(l);
    LeftPositive(c, l, m);
    LeftPositive(c, f, m);
    if e.Bit? && d > 0 {
      if l.tx.cnt == 0 { assert w * d == w * (d - 1) + w; }
    }
  }

  lemma LeftPositive(c: Config, l: Link, m: nat)
    requires ConfigOk(c)
    ensures Left(c, l, m) >= 0 && (Left(c, l, m) == 0 <==> Delivered(l) >= m)
  {
    var d := m - Delivered(l);
    if d > 0 {
      var k := d - if l.tx.cnt > 0 then 1 else 0;
      MulLe(0, k, WordSize(c));
      if k >= 1 { MulLe(1, k, WordSize(c)); }
    }
  }

  function BitsIn(es: seq<Event>): nat {
    if es == [] then 0 else BitsIn(es[..|es| - 1]) + if es[|es| - 1].Bit? then 1 else 0
  }

  lemma {:induction false} LeftAfter(c: Config, es: seq<Event>, more: seq<Event>, m: nat)
    requires ConfigOk(c) && m <= |Run(c, es).put|
    ensures Run(c, es).put <= Run(c, es + more).put
    ensures var left := Left(c, Run(c, es), m);
      Left(c, Run(c, es + more), m) == if left >= BitsIn(more) then left - BitsIn(more) else 0
  {
    hide Act, Left;
    if more == [] {
      assert es + more == es;
      Nearer(c, Run(c, es), Bit, m);
    } else {
      var n := |more| - 1;
      LeftAfter(c, es, more[..n], m);
      assert es + more == (es + more[..n]) + [more[n]];
      assert (es + more)[..|es + more| - 1] == es + more[..n];
      Nearer(c, Run(c, es + more[..n]), more[n], m);
    }
  }

  /**
   Every byte queued is delivered, whatever is queued after it and whenever: exactly when the bits of the word
   on the way and of all words queued have been sent.
   */
  lemma AllDelivered(c: Config, es: seq<Event>, more: seq<Event>)
    requires ConfigOk(c) && EventsOk(c, es + more)
    ensures var l := Run(c, es);
      Run(c, es).put <= Run(c, es + more).rx.out <==> BitsIn(more) >= l.tx.cnt + WordSize(c) * |l.tx.queue|
  {
    hide Run, Act, EventsOk;
    var l, f := Run(c, es), Run(c, es + more);
    var m := |l.put|;
    assert EventsOk(c, es) by { PartOk(c, es, more); }
    InOrder(c, es);
    InOrder(c, es + more);
    LeftAfter(c, es, more, m);
    LeftPositive(c, l, m);
    LeftPositive(c, f, m);
    assert |f.rx.out| == Delivered(f);
    if |l.put| <= |f.rx.out| { PrefixOfBoth(l.put, f.rx.out, f.put); }
    AllLeft(c, l);
  }

  lemma PartOk(c: Config, es: seq<Event>, more: seq<Event>)
    requires EventsOk(c, es + more)
    ensures EventsOk(c, es)
  {
    assert forall i :: 0 <= i < |es| ==> es[i] == (es + more)[i];
  }

  lemma AllLeft(c: Config, l: Link)
    requires ConfigOk(c)
    ensures Left(c, l, |l.put|) == l.tx.cnt + WordSize(c) * |l.tx.queue|
  {
  }

  lemma PrefixOfBoth(a: seq<byte>, b: seq<byte>, s: seq<byte>)
    requires a <= s && b <= s && |a| <= |b|
    ensures a <= b
  {
  }

  // ----- the port -----

  class SerialPort {
    const c: Config
    const txFifo: SmFifo
    const rxFifo: SmFifo
    var buf: nat
    var cnt: nat
    var txBuf: nat
    var txCnt: nat

    ghost predicate Valid()
      reads this, txFifo, txFifo.data, rxFifo, rxFifo.data
    {
      && ConfigOk(c) && txFifo.Valid() && rxFifo.Valid() && txFifo != rxFifo && txFifo.data != rxFifo.data
      && (this as object) !in {txFifo as object, rxFifo, txFifo.data, rxFifo.data}
    }

    ghost function TxView(): Tx
      requires Valid()
      reads this, txFifo, txFifo.data, rxFifo, rxFifo.data
    {
      Tx(txFifo.Contents(), txBuf, txCnt)
    }

    ghost function RxView(): Rx
      requires Valid()
      reads this, txFifo, txFifo.data, rxFifo, rxFifo.data
    {
      Rx(buf, cnt, rxFifo.Contents())
    }

    constructor (c: Config, size: nat)
      requires ConfigOk(c) && size > 0
      ensures Valid() && this.c == c && TxView() == Tx([], 0, 0) && RxView() == Rx(0, 0, [])
      ensures fresh(txFifo) && fresh(rxFifo) && fresh(txFifo.data) && fresh(rxFifo.data)
    {
      this.c := c;
      txFifo := new SmFifo(size);
      rxFifo := new SmFifo(size);
      buf, cnt, txBuf, txCnt := 0, 0, 0, 0;
    }

    /** The next bit to modulate. */
    method GetBit() returns (b: bit)
      requires Valid()
      modifies this`txBuf, this`txCnt, txFifo
      ensures Valid() && (b, TxView()) == NextBit(c, old(TxView())) && rxFifo.Contents() == old(rxFifo.Contents())
    {
      hide Shr, Xor, ToBits;
      if txCnt == 0 {
        var data := txFifo.GetBit();
        if data == -1 { return 1; }
        txCnt := WordSize(c);
        if c.useParity {
          var p := ParityOf(c, data);
          txBuf := 4 * data + 2 * p + 1;
        } else {
          txBuf := 2 * data + 1;
        }
      }
      txCnt := txCnt - 1;
      b := Shr(txBuf, txCnt) % 2;
    }

    /** A received bit; a byte that completes a word is lost if the queue is full. */
    method PutBit(b: bit)
      requires Valid()
      modifies this`buf, this`cnt, rxFifo, rxFifo.data
      ensures Valid() && txFifo.Contents() == old(txFifo.Contents())
      ensures var r := PutRx(c, old(RxView()), b); RxView() == r.(out := Room(r.out, rxFifo.maxSize))
    {
      hide Xor, ToBits, Pow2, Room;
      RoomFits(rxFifo.Contents(), rxFifo.maxSize);
      var next := (2 * buf + b) % 0x1_0000_0000;
      buf := next;
      if cnt >= WordSize(c) - 1 {
        var window := next % Pow2(WordSize(c));
        if window < Pow2(WordSize(c) - 1) && window % 2 == 1 {
          var data := window / 2;
          if c.useParity {
            var p := Xor(Start(c), ToBits(data, c.dataBits + 1));
            if p == 0 { rxFifo.PutBit(data / 2 % 256); }
          } else {
            rxFifo.PutBit(data % 256);
          }
          cnt := 0;
        }
      } else {
        cnt := cnt + 1;
      }
    }
  }

  /** The parity bit of a byte. */
  method ParityOf(c: Config, data: byte) returns (p: bit)
    ensures p == Xor(Start(c), ToBits(data, c.dataBits))
  {
    hide Xor, ToBits;
    var bits, j := ToBits(data, c.dataBits), 0;
    p := Start(c);
    assert bits[..0] == [];
    NoXor(p);
    while j < c.dataBits
      invariant 0 <= j <= c.dataBits && p == Xor(Start(c), bits[..j])
    {
      assert bits[..j + 1] == bits[..j] + [bits[j]];
      XorSnoc(Start(c), bits[..j], bits[j]);
      p := XorBit(p, bits[j]);
      j := j + 1;
    }
    assert bits[..j] == bits;
  }

  lemma NoXor(p: bit)
    ensures Xor(p, []) == p
  {
  }

  lemma RoomFits(q: seq<byte>, max: nat)
    requires |q| <= max
    ensures Room(q, max) == q
  {
  }
}
