/** Streams of CI and CM sequences, and what a receiver that starts anywhere in one makes of it. */
module V8Framing {
  import opened Bits
  import opened V8Codec
  import opened V8Receiver
  import opened V8Words

  /** What a side sends: single idle ones, CI sequences, and CM (or JM) sequences. */
  datatype Item = Idle | CiUnit | CmUnit

  function Flat(ws: seq<seq<bit>>): seq<bit> {
    if ws == [] then [] else ws[0] + Flat(ws[1..])
  }

  function OctetWords(o: seq<byte>): (ws: seq<seq<bit>>)
    ensures |ws| == |o| && forall i :: 0 <= i < |ws| ==> ws[i] == OctetWord(o[i])
  {
    seq(|o|, i requires 0 <= i < |o| => OctetWord(o[i]))
  }

  function Words(item: Item, mask: Modes): seq<seq<bit>> {
    match item
    case Idle => []
    case CiUnit => [Word(ONES), SyncWord(CI)] + OctetWords([CALL_FUNC_DATA])
    case CmUnit => [Word(ONES), SyncWord(CM)] + OctetWords(Octets(mask))
  }

  function ItemBits(item: Item, mask: Modes): seq<bit> {
    if item == Idle then [1] else Flat(Words(item, mask))
  }

  function StreamBits(items: seq<Item>, mask: Modes): seq<bit> {
    if items == [] then [] else StreamBits(items[..|items| - 1], mask) + ItemBits(items[|items| - 1], mask)
  }

  // ----- from one sequence to the next -----

  /** Only what was really sent has been noted. */
  predicate Good(r: Receiver, mask: Modes) {
    && (r.kind == CM ==> r.rx == Octets(mask))
    && (r.cm == [] || r.cm == Octets(mask))
    && (r.gotCm ==> r.decoded == Common(mask, KNOWN)) && !r.gotCj
  }

  predicate Boundary(r: Receiver, mask: Modes) {
    Gap(r) && Good(r, mask)
  }

  predicate NonZero(o: seq<byte>) {
    forall i :: 0 <= i < |o| ==> o[i] != 0
  }

  /** Octets after synchronisation are stored in turn; only zeros can make a CJ. */
  lemma {:induction false} FeedOctets(r: Receiver, o: seq<byte>)
    requires AtOctet(r) && Resting(r.sync) && r.kind != NoSync && |r.rx| + |o| <= RXMAX
    ensures var f := Feed(r, Flat(OctetWords(o)));
      && AtOctet(f) && Resting(f.sync) && f.rx == r.rx + o && f.kind == r.kind && (o != [] ==> f.cnt == 0)
      && f.cm == r.cm && f.gotCm == r.gotCm && f.decoded == r.decoded && (NonZero(o) ==> f.gotCj == r.gotCj)
    decreases o
  {
    hide PutBit, OctetWord, ZeroAt, Resting;
    if o != [] {
      var w, rest := OctetWord(o[0]), OctetWords(o[1..]);
      FeedOctet(r, o[0]);
      FeedOctets(Feed(r, w), o[1..]);
      assert OctetWords(o)[1..] == rest;
      FeedConcat(r, w, Flat(rest));
      assert r.rx + [o[0]] + o[1..] == r.rx + o;
    }
  }

  lemma FlatTwo(a: seq<bit>, b: seq<bit>, ws: seq<seq<bit>>)
    ensures Flat([a, b] + ws) == a + (b + Flat(ws))
  {
    assert ([a, b] + ws)[1..] == [b] + ws && ([b] + ws)[1..] == ws;
  }

  /** A whole sequence of either kind, from between sequences. */
  lemma FeedUnit(r: Receiver, kind: Kind, o: seq<byte>)
    requires Gap(r) && kind != NoSync && 1 <= |o| <= RXMAX
    ensures var f := Feed(r, Flat([Word(ONES), SyncWord(kind)] + OctetWords(o))); var s := Start(r, kind);
      && Gap(f) && f.rx == o && f.kind == kind
      && f.cm == s.cm && f.gotCm == s.gotCm && f.decoded == s.decoded && (NonZero(o) ==> f.gotCj == r.gotCj)
  {
    hide PutBit, ZeroAt, Resting, Word, SyncWord, OctetWords, LowOnes, CmDecode;
    var tail := Flat(OctetWords(o));
    FlatTwo(Word(ONES), SyncWord(kind), OctetWords(o));
    FeedConcat(r, Word(ONES), SyncWord(kind) + tail);
    FeedOnes(r);
    var a := Feed(r, Word(ONES));
    FeedConcat(a, SyncWord(kind), tail);
    FeedSync(a, kind);
    StartMoved(r, a, kind);
    StartKind(a, kind);
    FeedOctets(Feed(a, SyncWord(kind)), o);
  }

  /** Ending a sequence notes only what was sent. */
  lemma StartGood(r: Receiver, kind: Kind, mask: Modes)
    requires Good(r, mask)
    ensures var s := Start(r, kind);
      (s.cm == [] || s.cm == Octets(mask)) && (s.gotCm ==> s.decoded == Common(mask, KNOWN))
  {
    hide Octets, Decode;
    OctetsDecode(mask);
  }

  lemma FeedOneUnit(r: Receiver, kind: Kind, o: seq<byte>, mask: Modes)
    requires Boundary(r, mask) && kind != NoSync && 1 <= |o| <= RXMAX && NonZero(o)
    requires kind == CM ==> o == Octets(mask)
    ensures Boundary(Feed(r, Flat([Word(ONES), SyncWord(kind)] + OctetWords(o))), mask)
  {
    hide PutBit, Gap, OctetWords, Word, SyncWord, Octets, Start, Flat;
    FeedUnit(r, kind, o);
    StartGood(r, kind, mask);
  }

  lemma OctetsNonZero(mask: Modes)
    ensures NonZero(Octets(mask)) && NonZero([CALL_FUNC_DATA])
  {
  }

  /** An item keeps a receiver good. */
  lemma FeedItem(r: Receiver, item: Item, mask: Modes)
    requires Boundary(r, mask)
    ensures Boundary(Feed(r, ItemBits(item, mask)), mask)
  {
    hide PutBit, Gap, OctetWords, Word, SyncWord, Octets, Flat, Good, NonZero;
    OctetsNonZero(mask);
    match item
    case Idle =>
      FeedIdle(r, mask);
    case CiUnit =>
      FeedOneUnit(r, CI, [CALL_FUNC_DATA], mask);
    case CmUnit =>
      assert |Octets(mask)| == 4;
      FeedOneUnit(r, CM, Octets(mask), mask);
  }

  lemma FeedIdle(r: Receiver, mask: Modes)
    requires Boundary(r, mask)
    ensures Boundary(Feed(r, [1]), mask)
  {
    hide PutBit, Gap;
    GapOne(r);
    FeedOne(r, 1);
  }

  lemma {:induction false} FeedItems(r: Receiver, items: seq<Item>, mask: Modes)
    requires Boundary(r, mask)
    ensures Boundary(Feed(r, StreamBits(items, mask)), mask)
  {
    hide Boundary, ItemBits;
    if items != [] {
      var n := |items| - 1;
      FeedItems(r, items[..n], mask);
      FeedItem(Feed(r, StreamBits(items[..n], mask)), items[n], mask);
      FeedConcat(r, StreamBits(items[..n], mask), ItemBits(items[n], mask));
    }
  }

  /** Three CM sequences in a row are enough: the third synchronisation has the second one decoded. */
  lemma ThreeUnits(r: Receiver, mask: Modes)
    requires Boundary(r, mask)
    ensures Feed(r, StreamBits([CmUnit, CmUnit, CmUnit], mask)).gotCm
  {
    hide PutBit, Gap, OctetWords, Word, SyncWord, Octets, Decode;
    assert |Octets(mask)| == 4;
    var unit := ItemBits(CmUnit, mask);
    var a := Feed(r, unit);
    var b := Feed(a, unit);
    FeedUnit(r, CM, Octets(mask));
    FeedUnit(a, CM, Octets(mask));
    FeedUnit(b, CM, Octets(mask));
    var two := [CmUnit, CmUnit];
    assert [CmUnit, CmUnit, CmUnit][..2] == two && two[..1] == [CmUnit] && [CmUnit][..0] == [];
    assert StreamBits([CmUnit], mask) == [] + unit;
    assert [] + unit == unit;
    FeedConcat(r, unit, unit);
    FeedConcat(r, unit + unit, unit);
  }

  // ----- starting anywhere -----

  lemma {:induction false} ZerosShiftNothing(n: nat)
    ensures ShiftAll(0, Zeros(n)) == 0
  {
    if n != 0 {
      ZerosShiftNothing(n - 1);
      assert Zeros(n) == Zeros(n - 1) + [0];
      ShiftSnoc(0, Zeros(n - 1), 0);
    }
  }

  lemma {:induction false} ShiftConcat(s: bv20, a: seq<bit>, b: seq<bit>)
    ensures ShiftAll(s, a + b) == ShiftAll(ShiftAll(s, a), b)
  {
    hide Shift;
    if b == [] {
      assert a + b == a;
    } else {
      var u, x := b[..|b| - 1], b[|b| - 1];
      ShiftConcat(s, a, u);
      assert a + b == (a + u) + [x];
      ShiftSnoc(s, a + u, x);
    }
  }

  /** A receiver without synchronisation that has seen nothing of a sequence yet to come. */
  predicate Waiting(r: Receiver) {
    r == FRESH.(sync := r.sync) && ZeroAt(r.sync, 9) && Resting(r.sync)
  }

  /** A word of ten bits that begins with a zero and ends with a one. */
  predicate Plain(w: seq<bit>) {
    |w| == 10 && w[0] == 0 && w[9] == 1
  }

  /** The end of a word, shorter than the word unless that begins with a zero, shows nothing. */
  lemma EndOfWord(w: seq<bit>, k: nat)
    requires |w| == 10 && k < 10 && w[9] == 1 && (w[0] == 0 || k > 0)
    ensures Waiting(Feed(FRESH, w[k..]))
  {
    hide PutBit, ZeroAt, Resting, Packed, Shift, ShiftAll;
    var padded := Zeros(k) + w[k..];
    FeedUnsynced(FRESH, w[k..]) by { FreshZero(); }
    FeedShifts(FRESH, w[k..]);
    ZerosShiftNothing(k);
    ShiftConcat(0, Zeros(k), w[k..]);
    FeedShifts(FRESH, padded);
    AfterWord(FRESH, padded);
  }

  lemma FreshZero()
    ensures ZeroAt(0, 9)
  {
  }

  lemma {:induction false} WaitingWords(r: Receiver, ws: seq<seq<bit>>)
    requires Waiting(r) && forall i :: 0 <= i < |ws| ==> Plain(ws[i])
    ensures Waiting(Feed(r, Flat(ws)))
    decreases ws
  {
    hide PutBit, ZeroAt, Resting;
    if ws != [] {
      FeedUnsynced(r, ws[0]);
      AfterWord(r, ws[0]);
      WaitingWords(Feed(r, ws[0]), ws[1..]);
      FeedConcat(r, ws[0], Flat(ws[1..]));
    }
  }

  lemma {:induction false} FlatSuffix(ws: seq<seq<bit>>, k: nat)
    requires (forall i :: 0 <= i < |ws| ==> |ws[i]| == 10) && k < 10 * |ws|
    ensures k / 10 < |ws| && |Flat(ws)| == 10 * |ws|
    ensures Flat(ws)[k..] == ws[k / 10][k % 10..] + Flat(ws[k / 10 + 1..])
    decreases ws
  {
    FlatLength(ws);
    if k >= 10 {
      FlatSuffix(ws[1..], k - 10);
      assert ws[1..][k / 10 - 1 + 1..] == ws[k / 10 + 1..];
    }
  }

  lemma {:induction false} FlatLength(ws: seq<seq<bit>>)
    requires forall i :: 0 <= i < |ws| ==> |ws[i]| == 10
    ensures |Flat(ws)| == 10 * |ws|
    decreases ws
  {
    if ws != [] { FlatLength(ws[1..]); }
  }

  lemma UnitWords(kind: Kind, o: seq<byte>)
    requires kind != NoSync
    ensures var ws := [Word(ONES), SyncWord(kind)] + OctetWords(o);
      |ws[0]| == 10 && ws[0][9] == 1 && forall i :: 1 <= i < |ws| ==> Plain(ws[i])
  {
    hide OctetWord;
    OnesWord();
    CmSyncBits();
    CiSyncBits();
    var ws := [Word(ONES), SyncWord(kind)] + OctetWords(o);
    forall i | 2 <= i < |ws| ensures Plain(ws[i]) {
      OctetBits(o[i - 2]);
    }
  }

  /** Starting inside a sequence: the rest of it is not taken for anything. */
  lemma StartInside(kind: Kind, o: seq<byte>, k: nat)
    requires kind != NoSync && 0 < k < 10 * (2 + |o|)
    ensures var bits := Flat([Word(ONES), SyncWord(kind)] + OctetWords(o));
      |bits| == 10 * (2 + |o|) && Waiting(Feed(FRESH, bits[k..]))
  {
    hide PutBit, Word, SyncWord, OctetWords, Flat, Waiting;
    var ws := [Word(ONES), SyncWord(kind)] + OctetWords(o);
    UnitWords(kind, o);
    FlatSuffix(ws, k);
    var w, rest := ws[k / 10], ws[k / 10 + 1..];
    EndOfWord(w, k % 10);
    WaitingWords(Feed(FRESH, w[k % 10..]), rest);
    FeedConcat(FRESH, w[k % 10..], Flat(rest));
  }

  /** A receiver that starts anywhere in an item is good at the end of it. */
  lemma StartAnywhere(item: Item, mask: Modes, k: nat)
    requires k <= |ItemBits(item, mask)|
    ensures Boundary(Feed(FRESH, ItemBits(item, mask)[k..]), mask)
  {
    hide PutBit, Word, SyncWord, OctetWords, Flat, Octets;
    var bits := ItemBits(item, mask);
    FreshBoundary(mask);
    if k == 0 {
      assert bits[0..] == bits;
      FeedItem(FRESH, item, mask);
    } else if k == |bits| {
      assert bits[k..] == [];
    } else {
      assert |Octets(mask)| == 4;
      if item == CiUnit {
        ItemLength(CI, [CALL_FUNC_DATA]);
        StartInside(CI, [CALL_FUNC_DATA], k);
      } else {
        ItemLength(CM, Octets(mask));
        StartInside(CM, Octets(mask), k);
      }
      WaitingIsBoundary(Feed(FRESH, bits[k..]), mask);
    }
  }

  lemma ItemLength(kind: Kind, o: seq<byte>)
    requires kind != NoSync
    ensures |Flat([Word(ONES), SyncWord(kind)] + OctetWords(o))| == 10 * (2 + |o|)
  {
    hide Word, SyncWord, OctetWord;
    UnitWords(kind, o);
    FlatLength([Word(ONES), SyncWord(kind)] + OctetWords(o));
  }

  lemma FreshBoundary(mask: Modes)
    ensures Boundary(FRESH, mask)
  {
  }

  lemma WaitingIsBoundary(r: Receiver, mask: Modes)
    requires Waiting(r)
    ensures Boundary(r, mask)
  {
  }

  /** The stream from bit k on is the rest of an item, then whole items. */
  lemma {:induction false} StreamSuffix(items: seq<Item>, mask: Modes, k: nat)
    returns (item: Item, j: nat, rest: seq<Item>)
    requires items != [] && k <= |StreamBits(items, mask)|
    ensures j <= |ItemBits(item, mask)|
    ensures StreamBits(items, mask)[k..] == ItemBits(item, mask)[j..] + StreamBits(rest, mask)
  {
    hide ItemBits;
    var n := |items| - 1;
    var before, last := StreamBits(items[..n], mask), ItemBits(items[n], mask);
    if k >= |before| {
      item, j, rest := items[n], k - |before|, [];
      assert StreamBits(rest, mask) == [];
    } else {
      var rest';
      item, j, rest' := StreamSuffix(items[..n], mask, k);
      rest := rest' + [items[n]];
      assert rest[..|rest| - 1] == rest';
    }
  }

  /**
   A receiver that starts anywhere in a stream of sequences, and stops anywhere,
   decodes nothing but the modulations offered, and takes nothing for a CJ.
   */
  lemma OnlyTruth(items: seq<Item>, mask: Modes, from: nat, to: nat)
    requires from <= to <= |StreamBits(items, mask)|
    ensures var r := Feed(FRESH, StreamBits(items, mask)[from..to]);
      (r.gotCm ==> r.decoded == Common(mask, KNOWN)) && !r.gotCj
  {
    hide PutBit, ItemBits, Gap;
    var bits := StreamBits(items, mask);
    var r := Feed(FRESH, bits[from..to]);
    if items == [] {
      assert bits[from..to] == [];
    } else {
      assert bits[from..] == bits[from..to] + bits[to..];
      FeedConcat(FRESH, bits[from..to], bits[to..]);
      if r.gotCm { DecodedStays(r, bits[to..]); }
      if r.gotCj { CjStays(r, bits[to..]); }
      SuffixBoundary(items, mask, from);
    }
  }

  /** A receiver that starts anywhere is good at the end of the stream. */
  lemma SuffixBoundary(items: seq<Item>, mask: Modes, from: nat)
    requires from <= |StreamBits(items, mask)|
    ensures Boundary(Feed(FRESH, StreamBits(items, mask)[from..]), mask)
  {
    hide PutBit, ItemBits, Gap, Good;
    if items == [] {
      assert StreamBits(items, mask)[from..] == [];
      FreshBoundary(mask);
    } else {
      var item, j, rest := StreamSuffix(items, mask, from);
      StartAnywhere(item, mask, j);
      FeedItems(Feed(FRESH, ItemBits(item, mask)[j..]), rest, mask);
      FeedConcat(FRESH, ItemBits(item, mask)[j..], StreamBits(rest, mask));
    }
  }

  // ----- CJ -----

  /** Three zero octets in a row are never missed. */
  predicate Counting(r: Receiver) {
    (r.zeros >= 3 ==> r.gotCj) && r.buf < 1024
  }

  lemma {:induction false} CountingStays(r: Receiver, bits: seq<bit>)
    requires Counting(r)
    ensures Counting(Feed(r, bits))
  {
    if bits != [] { CountingStays(r, bits[..|bits| - 1]); }
  }

  lemma ZeroNoMatch(s: bv20)
    ensures Shift(s, 0) != CI_MATCH && Shift(s, 0) != CM_MATCH
  {
  }

  /** Zero bits are never an event. */
  lemma {:induction false} ZeroBits(r: Receiver, n: nat)
    requires r.kind != NoSync && r.buf < 1024
    ensures Passed(r, Feed(r, Zeros(n)), Zeros(n))
  {
    hide PutBit, Shift, Window, Passed;
    if n == 0 {
      ZeroWindow(r);
    } else {
      ZeroBits(r, n - 1);
      assert Zeros(n) == Zeros(n - 1) + [0];
      FeedSnoc(r, Zeros(n - 1), 0);
      ZeroNoMatch(Feed(r, Zeros(n - 1)).sync);
      EvenWindow(r.buf, Zeros(n - 1));
      PassedStep(r, Feed(r, Zeros(n - 1)), Zeros(n - 1), 0);
    }
  }

  lemma ZeroWindow(r: Receiver)
    requires r.buf < 1024
    ensures Passed(r, r, Zeros(0))
  {
    assert Window(r.buf, Zeros(0)) == r.buf % 1024;
  }

  lemma EvenWindow(buf: nat, bits: seq<bit>)
    ensures Window(buf, bits + [0]) % 2 == 0
  {
    hide Window;
    WindowSnoc(buf, bits, 0);
    EvenHalf(Window(buf, bits));
  }

  lemma EvenHalf(w: nat)
    ensures (2 * w + 0) % 1024 % 2 == 0
  {
    assert 2 * w == 1024 * (2 * w / 1024) + 2 * w % 1024;
  }

  lemma ZeroOctetBits()
    ensures OctetWord(0) == Zeros(9) + [1]
  {
  }

  /** The window after nine zeros and a one. */
  lemma NineZeros(buf: nat)
    ensures (2 * Window(buf, Zeros(9)) + 1) % 1024 == 1
  {
    ValZeros(9);
    assert Pow2(9) == 512 by { Pow2Values(); }
    ModTwice(buf * 512, 1);
    WholeWindows(1, buf);
  }

  /** The last bit of a zero octet, from any state: an octet, or what looks like a CI synchronisation. */
  lemma LastOfZero(r: Receiver, f: Receiver)
    requires r.kind != NoSync && Passed(r, f, Zeros(9)) && Counting(r) && Shift(f.sync, 1) != CM_MATCH
    ensures var g := PutBit(f, 1); g.kind != NoSync && g.buf == 1 && (g.cnt == 0 || g.cnt == 1) && Counting(g)
  {
    hide Shift, Window, Decode;
    NineZeros(r.buf);
  }

  lemma NotCm(s: bv20)
    ensures Shift(Shift(s, 0), 1) != CM_MATCH
  {
  }

  /** The first zero octet after anything at all. */
  lemma FirstZero(r: Receiver)
    requires r.kind != NoSync && Counting(r)
    ensures var g := Feed(r, OctetWord(0)); g.kind != NoSync && AtOctet(g) && Counting(g)
  {
    hide PutBit, Shift, Window, Passed, ZeroAt, OctetWord;
    ZeroOctetBits();
    ZeroBits(r, 9);
    var f := Feed(r, Zeros(9));
    FeedSnoc(r, Zeros(9), 1);
    FeedShifts(r, Zeros(9));
    ShiftSnoc(r.sync, Zeros(8), 0);
    assert Zeros(9) == Zeros(8) + [0];
    NotCm(ShiftAll(r.sync, Zeros(8)));
    LastOfZero(r, f);
    AfterWord(r, OctetWord(0));
  }

  /** One more zero octet is counted. */
  lemma NextZero(r: Receiver)
    requires r.kind != NoSync && AtOctet(r) && Counting(r)
    ensures var g := Feed(r, OctetWord(0));
      g.kind != NoSync && AtOctet(g) && Counting(g) && (g.gotCj || g.zeros == r.zeros + 1)
  {
    hide PutBit, Shift, ZeroAt, OctetWord, Resting;
    FeedOctet(r, 0);
  }

  /**
   A synchronised receiver, in whatever state, detects CJ in four zero octets,
   even if what precedes makes the first one look like a CI synchronisation.
   */
  lemma ZerosGiveCj(r: Receiver)
    requires r.kind != NoSync && Counting(r)
    ensures Feed(r, OctetWord(0) + OctetWord(0) + OctetWord(0) + OctetWord(0)).gotCj
  {
    hide PutBit, AtOctet, OctetWord;
    var z := OctetWord(0);
    FirstZero(r);
    var a := Feed(r, z);
    NextZero(a);
    var b := Feed(a, z);
    NextZero(b);
    var c := Feed(b, z);
    NextZero(c);
    FeedConcat(r, z, z);
    FeedConcat(r, z + z, z);
    FeedConcat(r, z + z + z, z);
    if a.gotCj {
      CjStays(a, z + z + z);
      FeedConcat(a, z, z);
      FeedConcat(a, z + z, z);
    } else if b.gotCj {
      CjStays(b, z);
      CjStays(c, z);
    } else if c.gotCj {
      CjStays(c, z);
    }
  }
}
