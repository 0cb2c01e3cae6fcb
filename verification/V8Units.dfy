/** How many CM or JM sequences, with any gaps between them, it takes to decode one. */
module V8Units {
  import opened Bits
  import opened V8Codec
  import opened V8Receiver
  import opened V8Words
  import opened V8Framing

  predicate OnlyCm(items: seq<Item>) {
    forall i :: 0 <= i < |items| ==> items[i] != CiUnit
  }

  function CountCm(items: seq<Item>): nat {
    if items == [] then 0 else CountCm(items[..|items| - 1]) + if items[|items| - 1] == CmUnit then 1 else 0
  }

  lemma CountOneMore(items: seq<Item>, item: Item)
    ensures CountCm(items + [item]) == CountCm(items) + if item == CmUnit then 1 else 0
  {
    assert (items + [item])[..|items|] == items;
  }

  /** After how many sequences what is known of them. */
  predicate Heard(r: Receiver, mask: Modes, n: nat) {
    && Boundary(r, mask) && (n >= 1 ==> r.kind == CM)
    && (n >= 2 ==> r.gotCm || r.cm == Octets(mask)) && (n >= 3 ==> r.gotCm)
  }

  lemma HeardIdle(r: Receiver, mask: Modes, n: nat)
    requires Heard(r, mask, n)
    ensures Heard(Feed(r, [1]), mask, n)
  {
    hide PutBit, Gap, Octets;
    GapOne(r);
    FeedOne(r, 1);
  }

  lemma HeardUnit(r: Receiver, mask: Modes, n: nat)
    requires Heard(r, mask, n)
    ensures Heard(Feed(r, ItemBits(CmUnit, mask)), mask, n + 1)
  {
    hide PutBit, Gap, OctetWords, Word, SyncWord, Octets, Flat, NonZero;
    assert |Octets(mask)| == 4;
    FeedItem(r, CmUnit, mask);
    FeedUnit(r, CM, Octets(mask));
  }

  /** Idle ones between sequences do not matter; the third sequence has one of the first two decoded. */
  lemma {:induction false} HeardItems(r: Receiver, items: seq<Item>, mask: Modes)
    requires Boundary(r, mask) && OnlyCm(items)
    ensures Heard(Feed(r, StreamBits(items, mask)), mask, CountCm(items))
  {
    hide Heard, ItemBits;
    if items == [] {
      NothingHeardYet(r, mask);
    } else {
      var n := |items| - 1;
      HeardItems(r, items[..n], mask);
      var f := Feed(r, StreamBits(items[..n], mask));
      FeedConcat(r, StreamBits(items[..n], mask), ItemBits(items[n], mask));
      if items[n] == Idle {
        HeardIdle(f, mask, CountCm(items[..n]));
        assert ItemBits(Idle, mask) == [1] by { IdleBits(mask); }
      } else {
        HeardUnit(f, mask, CountCm(items[..n]));
      }
    }
  }

  lemma NothingHeardYet(r: Receiver, mask: Modes)
    requires Boundary(r, mask)
    ensures Heard(Feed(r, []), mask, 0)
  {
  }

  lemma IdleBits(mask: Modes)
    ensures ItemBits(Idle, mask) == [1]
  {
  }

  lemma {:induction false} StreamConcat(a: seq<Item>, b: seq<Item>, mask: Modes)
    ensures StreamBits(a + b, mask) == StreamBits(a, mask) + StreamBits(b, mask)
  {
    hide ItemBits;
    if b == [] {
      assert a + b == a;
    } else {
      var n := |b| - 1;
      StreamConcat(a, b[..n], mask);
      assert a + b == (a + b[..n]) + [b[n]];
      assert (a + b)[..|a + b| - 1] == a + b[..n];
    }
  }

  /**
   A receiver that starts anywhere before item i of a stream, and has heard the items up to e, three of them
   whole sequences, has decoded one.
   */
  lemma UnitsHeard(items: seq<Item>, mask: Modes, from: nat, i: nat, e: nat, to: nat)
    requires i <= e <= |items| && OnlyCm(items[i..e]) && CountCm(items[i..e]) >= 3
    requires from <= |StreamBits(items[..i], mask)|
    requires |StreamBits(items[..e], mask)| <= to <= |StreamBits(items, mask)|
    ensures from <= to && Feed(FRESH, StreamBits(items, mask)[from..to]).gotCm
  {
    hide StreamBits, Feed, CountCm, OnlyCm, Heard, Boundary;
    var before, some := StreamBits(items[..i], mask), StreamBits(items[i..e], mask);
    assert items[..e] == items[..i] + items[i..e] && items == items[..e] + items[e..];
    StreamConcat(items[..i], items[i..e], mask);
    StreamConcat(items[..e], items[e..], mask);
    var bits := StreamBits(items, mask);
    assert bits[from..to] == before[from..] + some + bits[|before + some|..to];
    SuffixBoundary(items[..i], mask, from);
    HeardItems(Feed(FRESH, before[from..]), items[i..e], mask);
    FeedConcat(FRESH, before[from..], some);
    DecodedAfter(Feed(FRESH, before[from..] + some), mask, CountCm(items[i..e]));
    FeedConcat(FRESH, before[from..] + some, bits[|before + some|..to]);
    DecodedStays(Feed(FRESH, before[from..] + some), bits[|before + some|..to]);
  }

  lemma DecodedAfter(r: Receiver, mask: Modes, n: nat)
    requires Heard(r, mask, n) && n >= 3
    ensures r.gotCm
  {
  }

  /** A receiver that has decoded a sequence is synchronised, and stays so. */
  lemma {:induction false} KindStays(r: Receiver, bits: seq<bit>)
    ensures r.kind != NoSync ==> Feed(r, bits).kind != NoSync
    ensures (r.gotCm ==> r.kind != NoSync) ==> (Feed(r, bits).gotCm ==> Feed(r, bits).kind != NoSync)
  {
    if bits != [] { KindStays(r, bits[..|bits| - 1]); }
  }
}
