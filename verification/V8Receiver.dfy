/** The V.8 bit receiver: synchronisation, octets, CM/JM sequences and CJ. */
module V8Receiver {
  import opened Bits
  import opened V8Codec

  const CI_MATCH: bv20 := 0xffc01   // ten ones and the CI synchronisation
  const CM_MATCH: bv20 := 0xffc0f   // ten ones and the CM synchronisation
  const RXMAX: nat := 63

  datatype Kind = NoSync | CI | CM

  datatype Receiver = Receiver(
    sync: bv20, kind: Kind, buf: nat, cnt: nat, rx: seq<byte>,
    cm: seq<byte>, gotCm: bool, decoded: Modes, gotCj: bool, zeros: nat)

  /** After v8_decode_init. */
  const FRESH: Receiver := Receiver(0, NoSync, 0, 0, [], [], false, NONE, false, 0)

  function Shift(s: bv20, b: bit): bv20 {
    (s << 1) | (if b == 1 then 1 else 0)
  }

  /** A whole CM or JM sequence has been received: the second of two equal ones is decoded. */
  function CmDecode(r: Receiver): Receiver {
    if r.gotCm then r
    else if r.cm != [] && r.cm == r.rx then r.(gotCm := true, decoded := Decode(r.cm))
    else r.(cm := r.rx)
  }

  /** Synchronisation found. */
  function Start(r: Receiver, kind: Kind): Receiver {
    (if r.kind == CM then CmDecode(r) else r).(kind := kind, buf := 0, cnt := 0, rx := [])
  }

  /** A start bit, eight bits and a stop bit are in the window. */
  predicate Framed(buf: nat, cnt: nat) {
    buf < 512 && buf % 2 == 1 && cnt >= 10
  }

  function Store(r: Receiver, data: byte): Receiver {
    r.(gotCj := r.gotCj || (data == 0 && r.zeros + 1 == 3),
       zeros := if data == 0 then r.zeros + 1 else 0,
       rx := if |r.rx| < RXMAX then r.rx + [data] else r.rx,
       cnt := 0)
  }

  /** One bit into the octet window. */
  function Octet(r: Receiver, b: bit): Receiver {
    var r' := r.(buf := (2 * r.buf + b) % 1024, cnt := r.cnt + 1);
    if Framed(r'.buf, r'.cnt) then Store(r', (r'.buf / 2) % 256) else r'
  }

  /** One received bit. */
  function PutBit(r: Receiver, b: bit): Receiver {
    var s := Shift(r.sync, b);
    var r' := if s == CI_MATCH then Start(r, CI) else if s == CM_MATCH then Start(r, CM) else r;
    if r'.kind == NoSync then r'.(sync := s) else Octet(r'.(sync := s), b)
  }

  /** Received bits, one after another. */
  function Feed(r: Receiver, bits: seq<bit>): Receiver {
    if bits == [] then r else PutBit(Feed(r, bits[..|bits| - 1]), bits[|bits| - 1])
  }

  lemma FeedSnoc(r: Receiver, bits: seq<bit>, b: bit)
    ensures Feed(r, bits + [b]) == PutBit(Feed(r, bits), b)
  {
    assert (bits + [b])[..|bits|] == bits;
  }

  lemma {:induction false} FeedConcat(r: Receiver, s: seq<bit>, t: seq<bit>)
    ensures Feed(r, s + t) == Feed(Feed(r, s), t)
  {
    hide PutBit;
    if t == [] {
      assert s + t == s;
    } else {
      var u, b := t[..|t| - 1], t[|t| - 1];
      FeedConcat(r, s, u);
      assert s + t == (s + u) + [b];
      FeedSnoc(r, s + u, b);
    }
  }

  lemma FeedOne(r: Receiver, b: bit)
    ensures Feed(r, [b]) == PutBit(r, b)
  {
    assert [b][..0] == [];
  }

  /** Once decoded, a sequence stays decoded. */
  lemma {:induction false} DecodedStays(r: Receiver, bits: seq<bit>)
    requires r.gotCm
    ensures Feed(r, bits).gotCm && Feed(r, bits).decoded == r.decoded
  {
    if bits != [] { DecodedStays(r, bits[..|bits| - 1]); }
  }

  /** Once detected, CJ stays detected. */
  lemma {:induction false} CjStays(r: Receiver, bits: seq<bit>)
    requires r.gotCj
    ensures Feed(r, bits).gotCj
  {
    if bits != [] { CjStays(r, bits[..|bits| - 1]); }
  }

  // ----- where synchronisation cannot be found -----

  /** Some of bits 9 to 18 is zero, so that the next bit completes no ten ones. */
  predicate Blocked(s: bv20) {
    s & 0x7fe00 != 0x7fe00
  }

  lemma BlockedNoMatch(s: bv20, b: bit)
    requires Blocked(s)
    ensures Shift(s, b) != CI_MATCH && Shift(s, b) != CM_MATCH
  {
  }

  /** The bit of weight 2^i, for the upper half of the window. */
  function Place(i: nat): bv20
    requires 9 <= i <= 19
  {
    if i == 9 then 0x200 else if i == 10 then 0x400 else if i == 11 then 0x800 else if i == 12 then 0x1000
    else if i == 13 then 0x2000 else if i == 14 then 0x4000 else if i == 15 then 0x8000 else if i == 16 then 0x10000
    else if i == 17 then 0x20000 else if i == 18 then 0x40000 else 0x80000
  }

  predicate Clear(s: bv20, m: bv20) {
    s & m == 0
  }

  predicate ZeroAt(s: bv20, i: nat)
    requires 9 <= i <= 19
  {
    Clear(s, Place(i))
  }

  /** A zero bit on its way through the upper half keeps synchronisation from being found. */
  lemma ZeroMoves(s: bv20, b: bit, i: nat)
    requires 9 <= i <= 18 && ZeroAt(s, i)
    ensures ZeroAt(Shift(s, b), i + 1) && Blocked(s)
  {
    hide Shift, Blocked, Clear;
    ZerosMove(s, b);
  }

  lemma ZerosMove(s: bv20, b: bit)
    ensures Clear(s, 0x200) ==> Clear(Shift(s, b), 0x400) && Blocked(s)
    ensures Clear(s, 0x400) ==> Clear(Shift(s, b), 0x800) && Blocked(s)
    ensures Clear(s, 0x800) ==> Clear(Shift(s, b), 0x1000) && Blocked(s)
    ensures Clear(s, 0x1000) ==> Clear(Shift(s, b), 0x2000) && Blocked(s)
    ensures Clear(s, 0x2000) ==> Clear(Shift(s, b), 0x4000) && Blocked(s)
    ensures Clear(s, 0x4000) ==> Clear(Shift(s, b), 0x8000) && Blocked(s)
    ensures Clear(s, 0x8000) ==> Clear(Shift(s, b), 0x10000) && Blocked(s)
    ensures Clear(s, 0x10000) ==> Clear(Shift(s, b), 0x20000) && Blocked(s)
    ensures Clear(s, 0x20000) ==> Clear(Shift(s, b), 0x40000) && Blocked(s)
    ensures Clear(s, 0x40000) ==> Clear(Shift(s, b), 0x80000) && Blocked(s)
  {
  }

  /** A bit without event. */
  lemma QuietStep(r: Receiver, b: bit)
    requires Shift(r.sync, b) != CI_MATCH && Shift(r.sync, b) != CM_MATCH
    requires r.kind != NoSync ==> !Framed((2 * r.buf + b) % 1024, r.cnt + 1)
    ensures PutBit(r, b) == Quiet(r, Shift(r.sync, b), b)
  {
    hide Shift;
  }

  function Quiet(r: Receiver, s: bv20, b: bit): Receiver {
    if r.kind == NoSync then r.(sync := s) else r.(sync := s, buf := (2 * r.buf + b) % 1024, cnt := r.cnt + 1)
  }

  lemma WindowStep(buf: nat, p: nat, v: nat, b: bit)
    ensures (2 * ((buf * p + v) % 1024) + b) % 1024 == (buf * (2 * p) + (2 * v + b)) % 1024
  {
    Doubled(buf, p);
    ModTwice(buf * p + v, b);
  }

  lemma ModTwice(x: nat, b: bit)
    ensures (2 * (x % 1024) + b) % 1024 == (2 * x + b) % 1024
  {
    var q := x / 1024;
    assert 2 * x + b == (2 * (x % 1024) + b) + 1024 * (2 * q);
    WholeWindows(2 * (x % 1024) + b, 2 * q);
  }

  lemma WholeWindows(a: int, q: int)
    ensures (a + 1024 * q) % 1024 == a % 1024
  {
  }

  /** Where an octet may begin: nothing since the last one, or just after synchronisation. */
  predicate AtOctet(r: Receiver) {
    ZeroAt(r.sync, 9) && (r.kind != NoSync ==> r.buf < 1024 && (r.cnt == 0 || (r.cnt == 1 && r.buf == 1)))
  }

  /** The octet window after these bits. */
  function Window(buf: nat, bits: seq<bit>): nat {
    (buf * Pow2(|bits|) + Val(bits)) % 1024
  }

  /** f is r with only its windows moved by these bits. */
  predicate Passed(r: Receiver, f: Receiver, bits: seq<bit>) {
    if r.kind == NoSync then f == r.(sync := f.sync)
    else f == r.(sync := f.sync, buf := Window(r.buf, bits), cnt := r.cnt + |bits|)
  }

  lemma WindowSnoc(buf: nat, bits: seq<bit>, b: bit)
    ensures (2 * Window(buf, bits) + b) % 1024 == Window(buf, bits + [b])
  {
    WindowStep(buf, Pow2(|bits|), Val(bits), b);
    ValSnoc(bits, b);
  }

  lemma PassedStep(r: Receiver, f: Receiver, bits: seq<bit>, b: bit)
    requires Passed(r, f, bits) && Shift(f.sync, b) != CI_MATCH && Shift(f.sync, b) != CM_MATCH
    requires r.kind != NoSync ==> !Framed(Window(r.buf, bits + [b]), r.cnt + |bits| + 1)
    ensures Passed(r, PutBit(f, b), bits + [b]) && PutBit(f, b).sync == Shift(f.sync, b)
  {
    hide Shift, Window, Framed, PutBit;
    if r.kind != NoSync { WindowSnoc(r.buf, bits, b); }
    QuietStep(f, b);
  }

  /** The first nine bits of a word, whatever they are, only move the windows. */
  lemma {:induction false} NineBits(r: Receiver, bits: seq<bit>)
    requires AtOctet(r) && |bits| <= 9
    ensures ZeroAt(Feed(r, bits).sync, 9 + |bits|) && Passed(r, Feed(r, bits), bits)
  {
    hide Shift, ZeroAt, Blocked, Window, PutBit, Passed;
    if bits == [] {
      NothingPassed(r);
    } else {
      var n := |bits| - 1;
      var u, b := bits[..n], bits[n];
      NineBits(r, u);
      var f := Feed(r, u);
      assert bits == u + [b];
      ZeroMoves(f.sync, b, 9 + n);
      BlockedNoMatch(f.sync, b);
      if r.cnt == 1 && n == 8 { TopOne(bits); }
      PassedStep(r, f, u, b);
    }
  }

  lemma NothingPassed(r: Receiver)
    requires AtOctet(r)
    ensures Passed(r, r, [])
  {
    if r.kind != NoSync { assert Window(r.buf, []) == r.buf % 1024; }
  }

  /** Nine bits after the one that ended the synchronisation leave that one on top. */
  lemma TopOne(bits: seq<bit>)
    requires |bits| == 9
    ensures Window(1, bits) >= 512
  {
    Pow2Values();
  }
}
