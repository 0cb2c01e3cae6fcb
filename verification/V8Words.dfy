/** The receiver word by word: ones, synchronisation and octets, each of ten bits. */
module V8Words {
  import opened Bits
  import opened V8Codec
  import opened V8Receiver

  const ONES: nat := 0x3ff
  const CI_SYNC: nat := 1
  const CM_SYNC: nat := 0xf

  function Word(v: nat): (w: seq<bit>)
    ensures |w| == 10
  {
    ToBits(v, 10)
  }

  /** An octet with its start and stop bits. */
  function OctetWord(d: byte): (w: seq<bit>)
    ensures |w| == 10
  {
    Word(2 * d + 1)
  }

  lemma OctetBits(d: byte)
    ensures OctetWord(d)[0] == 0 && OctetWord(d)[9] == 1 && Val(OctetWord(d)) == 2 * d + 1
  {
    hide Pow2, Val, ToBits;
    assert Pow2(8) == 256 && Pow2(10) == 1024 by { Pow2Values(); }
    ValToBits(2 * d + 1, 10);
    LastBit(2 * d + 1, 10);
    ToBitsSplit(d, 1, 8);
    ShrDiv(d, 8);
    LastBit(0, 1);
  }

  lemma LastBit(v: nat, n: nat)
    requires n > 0
    ensures ToBits(v, n) == ToBits(v / 2, n - 1) + [v % 2]
  {
  }

  lemma CmSyncBits()
    ensures Word(CM_SYNC) == [0, 0, 0, 0, 0, 0, 1, 1, 1, 1]
  {
  }

  lemma CiSyncBits()
    ensures Word(CI_SYNC) == [0, 0, 0, 0, 0, 0, 0, 0, 0, 1]
  {
  }

  lemma {:induction false} OnesBits(n: nat, v: nat)
    requires v == Pow2(n) - 1
    ensures ToBits(v, n) == seq(n, _ => 1)
  {
    if n != 0 {
      OnesBits(n - 1, Pow2(n - 1) - 1);
      assert v % 2 == 1 && v / 2 == Pow2(n - 1) - 1;
    }
  }

  // ----- the synchronisation window -----

  function ShiftAll(s: bv20, bits: seq<bit>): bv20 {
    if bits == [] then s else Shift(ShiftAll(s, bits[..|bits| - 1]), bits[|bits| - 1])
  }

  lemma {:induction false} FeedShifts(r: Receiver, bits: seq<bit>)
    ensures Feed(r, bits).sync == ShiftAll(r.sync, bits)
  {
    hide Shift;
    if bits != [] { FeedShifts(r, bits[..|bits| - 1]); }
  }

  function V(b: bit): bv20 {
    if b == 1 then 1 else 0
  }

  /** The low ten bits of the window are the last word. */
  function Packed(w: seq<bit>): bv20
    requires |w| == 10
  {
    (V(w[0]) << 9) | (V(w[1]) << 8) | (V(w[2]) << 7) | (V(w[3]) << 6) | (V(w[4]) << 5)
    | (V(w[5]) << 4) | (V(w[6]) << 3) | (V(w[7]) << 2) | (V(w[8]) << 1) | V(w[9])
  }

  lemma ShiftSnoc(s: bv20, u: seq<bit>, b: bit)
    ensures ShiftAll(s, u + [b]) == Shift(ShiftAll(s, u), b)
  {
    assert (u + [b])[..|u|] == u;
  }

  lemma {:induction false} ShiftUpTo(s: bv20, w: seq<bit>, k: nat)
    requires k < |w|
    ensures ShiftAll(s, w[..k + 1]) == Shift(ShiftAll(s, w[..k]), w[k]) && ShiftAll(s, w[..0]) == s && w[..|w|] == w
  {
    ShiftSnoc(s, w[..k], w[k]);
    assert w[..0] == [] && w[..|w|] == w;
    assert w[..k + 1] == w[..k] + [w[k]];
  }

  lemma ShiftWord(s: bv20, w: seq<bit>)
    requires |w| == 10
    ensures ShiftAll(s, w) == (s << 10) | Packed(w)
  {
    hide ShiftAll, Shift, V;
    ShiftUpTo(s, w, 0);
    ShiftUpTo(s, w, 1);
    ShiftUpTo(s, w, 2);
    ShiftUpTo(s, w, 3);
    ShiftUpTo(s, w, 4);
    ShiftUpTo(s, w, 5);
    ShiftUpTo(s, w, 6);
    ShiftUpTo(s, w, 7);
    ShiftUpTo(s, w, 8);
    ShiftUpTo(s, w, 9);
    TenShifts(s, w);
  }

  lemma TenShifts(s: bv20, w: seq<bit>)
    requires |w| == 10
    ensures var t := Shift(Shift(Shift(Shift(Shift(s, w[0]), w[1]), w[2]), w[3]), w[4]);
      Shift(Shift(Shift(Shift(Shift(t, w[5]), w[6]), w[7]), w[8]), w[9])
         == (s << 10) | Packed(w)
  {
  }

  predicate LowOnes(s: bv20) {
    s & 0x3ff == 0x3ff
  }

  /** No synchronisation is under way that one bits could complete. */
  predicate Resting(s: bv20) {
    s == 0 || (s & 1 == 1 && s & 0x1ffff != 0x1ff81 && s & 0x3ffff != 0x3ff03 && s & 0x7ffff != 0x7fe07)
  }

  lemma AfterWord(r: Receiver, w: seq<bit>)
    requires |w| == 10 && w[0] == 0 && w[9] == 1
    ensures ZeroAt(Feed(r, w).sync, 9) && Resting(Feed(r, w).sync)
  {
    FeedShifts(r, w);
    ShiftWord(r.sync, w);
    PackedEnds(r.sync, w);
  }

  lemma PackedEnds(s: bv20, w: seq<bit>)
    requires |w| == 10 && w[0] == 0 && w[9] == 1
    ensures ((s << 10) | Packed(w)) & 0x200 == 0 && ((s << 10) | Packed(w)) & 1 == 1
    ensures Resting((s << 10) | Packed(w))
  {
    PackedRange(w);
    TopClear(s, Packed(w));
  }

  lemma PackedRange(w: seq<bit>)
    requires |w| == 10 && w[0] == 0 && w[9] == 1
    ensures Packed(w) < 0x200 && Packed(w) & 1 == 1
  {
  }

  lemma TopClear(s: bv20, v: bv20)
    requires v < 0x200 && v & 1 == 1
    ensures ((s << 10) | v) & 0x200 == 0 && ((s << 10) | v) & 1 == 1
    ensures Resting((s << 10) | v)
  {
  }

  // ----- octets -----

  /** An octet is stored, whatever it is. */
  lemma FeedOctet(r: Receiver, d: byte)
    requires AtOctet(r) && r.kind != NoSync
    ensures var f := Feed(r, OctetWord(d));
      f == Store(r, d).(sync := f.sync, buf := 2 * d + 1) && AtOctet(f) && Resting(f.sync)
  {
    hide Shift, Blocked, ZeroAt, Window, OctetWord, Packed, Resting;
    var w := OctetWord(d);
    var u := w[..9];
    assert w == u + [1] by { OctetBits(d); }
    NineBits(r, u);
    FeedSnoc(r, u, 1);
    var f := Feed(r, u);
    ZeroMoves(f.sync, 1, 18);
    BlockedNoMatch(f.sync, 1);
    OctetWindow(r.buf, d);
    WindowSnoc(r.buf, u, 1);
    OctetBits(d);
    AfterWord(r, w);
    LastOfOctet(r, f, d);
  }

  lemma OctetWindow(buf: nat, d: byte)
    ensures Window(buf, OctetWord(d)) == 2 * d + 1
  {
    hide Val, OctetWord;
    OctetBits(d);
    assert Pow2(10) == 1024 by { Pow2Values(); }
    assert |OctetWord(d)| == 10;
    WholeWindows(2 * d + 1, buf);
  }

  lemma LastOfOctet(r: Receiver, f: Receiver, d: byte)
    requires r.kind != NoSync && f == r.(sync := f.sync, buf := f.buf, cnt := r.cnt + 9)
    requires (2 * f.buf + 1) % 1024 == 2 * d + 1
    requires Shift(f.sync, 1) != CI_MATCH && Shift(f.sync, 1) != CM_MATCH
    ensures PutBit(f, 1) == Store(r, d).(sync := PutBit(f, 1).sync, buf := 2 * d + 1)
  {
    hide Shift;
  }

  /** Without synchronisation a word that cannot complete one changes nothing but the window. */
  lemma FeedUnsynced(r: Receiver, w: seq<bit>)
    requires r.kind == NoSync && ZeroAt(r.sync, 9) && |w| <= 10
    ensures var f := Feed(r, w); f == r.(sync := f.sync)
  {
    hide Shift, Blocked, ZeroAt, Window;
    if |w| <= 9 {
      NineBits(r, w);
    } else {
      var u := w[..9];
      NineBits(r, u);
      assert w == u + [w[9]];
      FeedSnoc(r, u, w[9]);
      var f := Feed(r, u);
      ZeroMoves(f.sync, w[9], 18);
      BlockedNoMatch(f.sync, w[9]);
      QuietStep(f, w[9]);
    }
  }

  // ----- ones -----

  /** Since the last octet or synchronisation only ones have come into the octet window. */
  predicate OnlyOnes(buf: nat, cnt: nat) {
    && buf < 1024 && (cnt >= 10 ==> buf == 1023)
    && (cnt == 1 ==> buf % 2 == 1) && (cnt == 2 ==> buf % 4 == 3) && (cnt == 3 ==> buf % 8 == 7)
    && (cnt == 4 ==> buf % 16 == 15) && (cnt == 5 ==> buf % 32 == 31) && (cnt == 6 ==> buf % 64 == 63)
    && (cnt == 7 ==> buf % 128 == 127) && (cnt == 8 ==> buf % 256 == 255) && (cnt == 9 ==> buf % 512 == 511)
  }

  /** Between sequences. */
  predicate Gap(r: Receiver) {
    Resting(r.sync) && (r.kind != NoSync ==> OnlyOnes(r.buf, r.cnt))
  }

  lemma RestingOne(s: bv20)
    requires Resting(s)
    ensures Shift(s, 1) != CI_MATCH && Shift(s, 1) != CM_MATCH && Resting(Shift(s, 1))
  {
  }

  /** A window that ends in ones, moved by another one. */
  lemma DoubleOnes(buf: nat, q: nat, p: nat, k: nat)
    requires buf == q * p + (p - 1) && p >= 1 && k >= 1 && k * (2 * p) == 1024
    ensures (2 * buf + 1) % 1024 % (2 * p) == 2 * p - 1
  {
    Doubled(q, p);
    DivModUnique(2 * buf + 1, 2 * p, q, 2 * p - 1);
    ModDivides(2 * buf + 1, 2 * p, k);
  }

  lemma OnesMore(buf: nat, cnt: nat)
    requires OnlyOnes(buf, cnt)
    ensures OnlyOnes((2 * buf + 1) % 1024, cnt + 1) && !Framed((2 * buf + 1) % 1024, cnt + 1)
  {
    if cnt == 0 { DoubleOnes(buf, buf, 1, 512); }
    if cnt == 1 { DoubleOnes(buf, buf / 2, 2, 256); }
    if cnt == 2 { DoubleOnes(buf, buf / 4, 4, 128); }
    if cnt == 3 { DoubleOnes(buf, buf / 8, 8, 64); }
    if cnt == 4 { DoubleOnes(buf, buf / 16, 16, 32); }
    if cnt == 5 { DoubleOnes(buf, buf / 32, 32, 16); }
    if cnt == 6 { DoubleOnes(buf, buf / 64, 64, 8); }
    if cnt == 7 { DoubleOnes(buf, buf / 128, 128, 4); }
    if cnt == 8 { DoubleOnes(buf, buf / 256, 256, 2); }
    if cnt == 9 { LastOfTen(buf); }
  }

  lemma LastOfTen(buf: nat)
    requires buf < 1024 && buf % 512 == 511
    ensures (2 * buf + 1) % 1024 == 1023
  {
    assert buf == 511 || buf == 1023;
  }

  /** What the protocol sees of a receiver. */
  predicate SameEvents(r: Receiver, f: Receiver) {
    f == r.(sync := f.sync, buf := f.buf, cnt := f.cnt)
  }

  /** A one in a gap changes nothing but the windows. */
  lemma GapOne(r: Receiver)
    requires Gap(r)
    ensures Gap(PutBit(r, 1)) && SameEvents(r, PutBit(r, 1)) && PutBit(r, 1).sync == Shift(r.sync, 1)
    ensures r.kind != NoSync ==> PutBit(r, 1).cnt == r.cnt + 1
  {
    hide Shift, Resting, OnlyOnes, Framed;
    RestingOne(r.sync);
    if r.kind != NoSync { OnesMore(r.buf, r.cnt); }
    QuietStep(r, 1);
  }

  function Ones(n: nat): (w: seq<bit>)
    ensures |w| == n && forall i :: 0 <= i < n ==> w[i] == 1
  {
    seq(n, _ => 1)
  }

  lemma {:induction false} GapRun(r: Receiver, n: nat)
    requires Gap(r)
    ensures var f := Feed(r, Ones(n)); Gap(f) && SameEvents(r, f) && (r.kind != NoSync ==> f.cnt == r.cnt + n)
  {
    hide Gap, PutBit;
    if n != 0 {
      GapRun(r, n - 1);
      assert Ones(n) == Ones(n - 1) + [1];
      FeedSnoc(r, Ones(n - 1), 1);
      GapOne(Feed(r, Ones(n - 1)));
    }
  }

  lemma OnesWord()
    ensures Word(ONES) == Ones(10)
  {
    assert ONES == Pow2(10) - 1 by { Pow2Values(); }
    OnesBits(10, ONES);
  }

  /** Ten ones in a gap prepare for synchronisation. */
  lemma FeedOnes(r: Receiver)
    requires Gap(r)
    ensures var f := Feed(r, Word(ONES));
      Gap(f) && SameEvents(r, f) && LowOnes(f.sync) && (r.kind != NoSync ==> f.buf == 1023)
  {
    hide Resting, Shift;
    GapRun(r, 10);
    OnesWord();
    FeedShifts(r, Ones(10));
    ShiftWord(r.sync, Ones(10));
    AllOnes(r.sync);
  }

  lemma AllOnes(s: bv20)
    ensures LowOnes((s << 10) | Packed(Ones(10)))
  {
    assert Packed(Ones(10)) == 0x3ff;
  }

  // ----- synchronisation -----

  /** Bits k to 8 of the window are ones. */
  predicate OnesFrom(s: bv20, k: nat) {
    var m: bv20 := if k == 0 then 0x1ff else if k == 1 then 0x1fe else if k == 2 then 0x1fc else if k == 3 then 0x1f8
                   else if k == 4 then 0x1f0 else if k == 5 then 0x1e0
                   else if k == 6 then 0x1c0 else if k == 7 then 0x180
                   else 0x100;
    s & m == m
  }

  lemma OnesMove(s: bv20, b: bit, k: nat)
    requires k <= 8 && OnesFrom(s, k)
    ensures Shift(s, b) != CI_MATCH && Shift(s, b) != CM_MATCH && (k < 8 ==> OnesFrom(Shift(s, b), k + 1))
  {
  }

  lemma HighWindow(bits: seq<bit>)
    requires |bits| <= 9
    ensures Window(1023, bits) >= 512
  {
    hide Val;
    Pow2Monotone(|bits|, 9);
    assert Pow2(9) == 512 by { Pow2Values(); }
    var p := Pow2(|bits|);
    assert 1023 * p + Val(bits) == (1024 - p + Val(bits)) + 1024 * (p - 1);
    WholeWindows(1024 - p + Val(bits), p - 1);
  }

  /** Up to nine bits after ten ones only move the windows. */
  lemma {:induction false} NineAfterOnes(r: Receiver, bits: seq<bit>)
    requires LowOnes(r.sync) && (r.kind != NoSync ==> r.buf == 1023) && |bits| <= 9
    ensures var f := Feed(r, bits); Passed(r, f, bits) && (|bits| <= 8 ==> OnesFrom(f.sync, |bits|))
  {
    hide Shift, Window, PutBit, Passed, LowOnes, OnesFrom;
    if bits == [] {
      NoneAfterOnes(r);
    } else {
      var n := |bits| - 1;
      var u, b := bits[..n], bits[n];
      NineAfterOnes(r, u);
      var f := Feed(r, u);
      assert bits == u + [b];
      OnesMove(f.sync, b, n);
      HighWindow(bits);
      PassedStep(r, f, u, b);
    }
  }

  lemma NoneAfterOnes(r: Receiver)
    requires LowOnes(r.sync) && (r.kind != NoSync ==> r.buf == 1023)
    ensures Passed(r, r, []) && OnesFrom(r.sync, 0)
  {
    if r.kind != NoSync { assert Window(1023, []) == 1023; }
  }

  function SyncWord(kind: Kind): seq<bit> {
    if kind == CM then Word(CM_SYNC) else Word(CI_SYNC)
  }

  lemma Matches(s: bv20)
    requires LowOnes(s)
    ensures (s << 10) | Packed(Word(CM_SYNC)) == CM_MATCH && (s << 10) | Packed(Word(CI_SYNC)) == CI_MATCH
  {
    CmSyncBits();
    CiSyncBits();
    MatchesBits(s);
  }

  lemma MatchesBits(s: bv20)
    requires LowOnes(s)
    ensures (s << 10) | Packed([0, 0, 0, 0, 0, 0, 1, 1, 1, 1]) == CM_MATCH
    ensures (s << 10) | Packed([0, 0, 0, 0, 0, 0, 0, 0, 0, 1]) == CI_MATCH
  {
  }

  function Match(kind: Kind): bv20 {
    if kind == CM then CM_MATCH else CI_MATCH
  }

  lemma StartMoved(r: Receiver, f: Receiver, kind: Kind)
    requires SameEvents(r, f)
    ensures Start(f, kind) == Start(r, kind).(sync := f.sync)
  {
    hide Decode;
  }

  lemma FirstOfOctets(r: Receiver, s: bv20)
    requires r.kind != NoSync && r.buf == 0 && r.cnt == 0
    ensures Octet(r.(sync := s), 1) == r.(sync := s, buf := 1, cnt := 1)
  {
  }

  lemma PutMatch(f: Receiver, b: bit, kind: Kind)
    requires kind != NoSync && Shift(f.sync, b) == Match(kind)
    ensures PutBit(f, b) == Octet(Start(f, kind).(sync := Match(kind)), b)
  {
    hide Start, Octet, Shift;
    StartKind(f, kind);
  }

  /** The bit that completes a synchronisation. */
  lemma Completes(r: Receiver, f: Receiver, kind: Kind)
    requires SameEvents(r, f) && kind != NoSync && Shift(f.sync, 1) == Match(kind)
    ensures PutBit(f, 1) == Start(r, kind).(sync := Match(kind), buf := 1, cnt := 1)
  {
    hide Shift, PutBit, Octet, Start, SameEvents;
    PutMatch(f, 1, kind);
    StartMoved(r, f, kind);
    StartKind(r, kind);
    FirstOfOctets(Start(r, kind), Match(kind));
  }

  lemma PassedSame(r: Receiver, f: Receiver, bits: seq<bit>)
    requires Passed(r, f, bits)
    ensures SameEvents(r, f)
  {
  }

  lemma FeedMatch(r: Receiver, w: seq<bit>, kind: Kind)
    requires LowOnes(r.sync) && (r.kind != NoSync ==> r.buf == 1023) && kind != NoSync
    requires |w| == 10 && w[9] == 1 && ShiftAll(r.sync, w) == Match(kind)
    ensures Feed(r, w) == Start(r, kind).(sync := Match(kind), buf := 1, cnt := 1)
  {
    hide Shift, PutBit, Passed, LowOnes, Start, SameEvents, Match;
    var u := w[..9];
    assert w == u + [1];
    NineAfterOnes(r, u);
    var f := Feed(r, u);
    FeedSnoc(r, u, 1);
    FeedShifts(r, u);
    ShiftSnoc(r.sync, u, 1);
    PassedSame(r, f, u);
    Completes(r, f, kind);
  }

  /** After ten ones, synchronisation is found: the sequence before is over and a new one begins. */
  lemma FeedSync(r: Receiver, kind: Kind)
    requires LowOnes(r.sync) && (r.kind != NoSync ==> r.buf == 1023) && kind != NoSync
    ensures var f := Feed(r, SyncWord(kind));
      f == Start(r, kind).(sync := f.sync, buf := 1, cnt := 1) && AtOctet(f) && Resting(f.sync)
  {
    hide PutBit, LowOnes, Packed, Start, Resting, ZeroAt;
    var w := SyncWord(kind);
    if kind == CM { CmSyncBits(); } else { CiSyncBits(); }
    ShiftWord(r.sync, w);
    Matches(r.sync);
    FeedMatch(r, w, kind);
    AfterWord(r, w);
    StartKind(r, kind);
  }

  lemma StartKind(r: Receiver, kind: Kind)
    ensures var s := Start(r, kind); s.kind == kind && s.buf == 0 && s.cnt == 0 && s.rx == [] && s.gotCj == r.gotCj
  {
  }
}
