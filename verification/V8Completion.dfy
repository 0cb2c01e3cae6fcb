/** A V.8 call can always be completed: a schedule that ends with both sides finished. */
module V8Completion {
  import opened Bits
  import opened V8Codec
  import opened V8Receiver
  import opened V8Words
  import opened V8Framing
  import opened V8Protocol
  import opened V8System

  // ----- two endpoints and an empty line -----

  /** Neither side has returned, all bits sent have been taken, and the endpoints are these. */
  predicate At(s: System, c: Endpoint, a: Endpoint) {
    && s.caller.ret == NONE && s.answerer.ret == NONE
    && s.caller.taken == |s.caller.sent| && s.answerer.taken == |s.answerer.sent|
    && s.caller.e == c && s.answerer.e == a
  }

  /** The moves take the call from one such point to another. */
  predicate Leads(s: System, ms: seq<Move>, now: nat, c: Endpoint, a: Endpoint) {
    AllAt(ms, now) && At(Run(s, ms), c, a)
  }

  lemma LeadsOn(s: System, ms: seq<Move>, more: seq<Move>, now: nat, c: Endpoint, a: Endpoint)
    requires AllAt(ms, now) && Leads(Run(s, ms), more, now, c, a)
    ensures Leads(s, ms + more, now, c, a)
  {
    hide Run, At;
    RunConcat(s, ms, more);
  }

  /** A call of the caller's handler. */
  lemma CallC(s: System, ms: seq<Move>, now: nat, c: Endpoint, a: Endpoint) returns (ms': seq<Move>)
    requires Leads(s, ms, now, c, a) && Process(c, now).ret == NONE
    ensures Leads(s, ms', now, Process(c, now).e, a)
  {
    hide Run, Process;
    var m := Move(true, CallHandler(now));
    RunOne(Run(s, ms), m);
    LeadsOn(s, ms, [m], now, Process(c, now).e, a);
    ms' := ms + [m];
  }

  /** A call of the answerer's handler. */
  lemma CallA(s: System, ms: seq<Move>, now: nat, c: Endpoint, a: Endpoint) returns (ms': seq<Move>)
    requires Leads(s, ms, now, c, a) && Process(a, now).ret == NONE
    ensures Leads(s, ms', now, c, Process(a, now).e)
  {
    hide Run, Process;
    var m := Move(false, CallHandler(now));
    RunOne(Run(s, ms), m);
    LeadsOn(s, ms, [m], now, c, Process(a, now).e);
    ms' := ms + [m];
  }

  lemma Tone(s: System, ms: seq<Move>, now: nat, c: Endpoint, a: Endpoint) returns (ms': seq<Move>)
    requires Leads(s, ms, now, c, a) && Listening(c.state)
    ensures Leads(s, ms', now, c.(ansam := true), a)
  {
    hide Run;
    var m := Move(true, HearTone);
    RunOne(Run(s, ms), m);
    LeadsOn(s, ms, [m], now, c.(ansam := true), a);
    ms' := ms + [m];
  }

  /** One bit from the caller to the answerer. */
  lemma BitToA(s: System, ms: seq<Move>, now: nat, c: Endpoint, a: Endpoint) returns (ms': seq<Move>)
    requires Leads(s, ms, now, c, a) && Sending(c.state)
    ensures Leads(s, ms', now, Emit(c), Hear(a, NextBit(c)))
  {
    hide Run, PutBit, Emit, NextBit, Hear;
    var t := Run(s, ms);
    var m, k := Move(true, SendBit), Move(false, TakeBit);
    RunOne(t, m);
    RunOne(Next(t, m), k);
    RunConcat(t, [m], [k]);
    assert [m] + [k] == [m, k];
    LeadsOn(s, ms, [m, k], now, Emit(c), Hear(a, NextBit(c)));
    ms' := ms + [m, k];
  }

  /** One bit from the answerer to the caller. */
  lemma BitToC(s: System, ms: seq<Move>, now: nat, c: Endpoint, a: Endpoint) returns (ms': seq<Move>)
    requires Leads(s, ms, now, c, a) && Sending(a.state)
    ensures Leads(s, ms', now, Hear(c, NextBit(a)), Emit(a))
  {
    hide Run, PutBit, Emit, NextBit, Hear;
    var t := Run(s, ms);
    var m, k := Move(false, SendBit), Move(true, TakeBit);
    RunOne(t, m);
    RunOne(Next(t, m), k);
    RunConcat(t, [m], [k]);
    assert [m] + [k] == [m, k];
    LeadsOn(s, ms, [m, k], now, Hear(c, NextBit(a)), Emit(a));
    ms' := ms + [m, k];
  }

  /** What an endpoint is after these bits have come in. */
  function Heard(e: Endpoint, bits: seq<bit>): Endpoint {
    if Receiving(e.state) then e.(rx := Feed(e.rx, bits)) else e
  }

  lemma HeardNone(e: Endpoint)
    ensures Heard(e, []) == e
  {
  }

  lemma HearFirst(e: Endpoint, b: bit, rest: seq<bit>)
    ensures Heard(Hear(e, b), rest) == Heard(e, [b] + rest)
  {
    hide Feed, PutBit;
    FeedOne(e.rx, b);
    FeedConcat(e.rx, [b], rest);
  }

  lemma EmitFirst(e: Endpoint, bits: seq<bit>)
    requires e.tx == bits && bits != []
    ensures NextBit(e) == bits[0] && Emit(e) == e.(tx := bits[1..])
  {
  }

  /** The caller's whole queue to the answerer. */
  lemma {:induction false} QueueToA(s: System, ms: seq<Move>, now: nat, c: Endpoint, a: Endpoint, bits: seq<bit>)
    returns (ms': seq<Move>)
    requires Leads(s, ms, now, c, a) && Sending(c.state) && c.tx == bits
    ensures Leads(s, ms', now, c.(tx := []), Heard(a, bits))
    decreases bits
  {
    hide Leads, Heard, Hear, Emit, NextBit;
    if bits == [] {
      HeardNone(a);
      ms' := ms;
    } else {
      EmitFirst(c, bits);
      HearFirst(a, bits[0], bits[1..]);
      assert bits == [bits[0]] + bits[1..];
      var more := BitToA(s, ms, now, c, a);
      ms' := QueueToA(s, more, now, c.(tx := bits[1..]), Hear(a, bits[0]), bits[1..]);
    }
  }

  /** The answerer's whole queue to the caller. */
  lemma {:induction false} QueueToC(s: System, ms: seq<Move>, now: nat, c: Endpoint, a: Endpoint, bits: seq<bit>)
    returns (ms': seq<Move>)
    requires Leads(s, ms, now, c, a) && Sending(a.state) && a.tx == bits
    ensures Leads(s, ms', now, Heard(c, bits), a.(tx := []))
    decreases bits
  {
    hide Leads, Heard, Hear, Emit, NextBit;
    if bits == [] {
      HeardNone(c);
      ms' := ms;
    } else {
      EmitFirst(a, bits);
      HearFirst(c, bits[0], bits[1..]);
      assert bits == [bits[0]] + bits[1..];
      var more := BitToC(s, ms, now, c, a);
      ms' := QueueToC(s, more, now, Hear(c, bits[0]), a.(tx := bits[1..]), bits[1..]);
    }
  }

  // ----- the receivers -----

  lemma HeardMore(e: Endpoint, x: seq<bit>, y: seq<bit>)
    ensures Heard(Heard(e, x), y) == Heard(e, x + y)
  {
    hide Feed;
    FeedConcat(e.rx, x, y);
  }

  /** A receiver between sequences that has not heard a CJ. */
  predicate Attentive(r: Receiver, mask: Modes) {
    Boundary(r, mask) && Counting(r) && !r.gotCj
  }

  lemma FreshAttentive(mask: Modes)
    ensures Attentive(FRESH, mask)
  {
    FreshBoundary(mask);
  }

  /** A sequence leaves it so. */
  lemma UnitAttentive(r: Receiver, item: Item, mask: Modes)
    requires Attentive(r, mask) && item != Idle
    ensures var f := Feed(r, ItemBits(item, mask)); Attentive(f, mask) && f.kind == (if item == CmUnit then CM else CI)
  {
    hide Feed, Gap, Good, Octets, Word, SyncWord, Flat, OctetWords;
    FeedItem(r, item, mask);
    CountingStays(r, ItemBits(item, mask));
    OctetsNonZero(mask);
    FeedUnit(r, if item == CmUnit then CM else CI, if item == CmUnit then Octets(mask) else [CALL_FUNC_DATA]);
  }

  /** Four CI sequences. */
  lemma AfterCi(r: Receiver, mask: Modes)
    requires Attentive(r, mask)
    ensures var b := ItemBits(CiUnit, mask); Attentive(Feed(r, b + b + b + b), mask)
  {
    hide Feed, Attentive, ItemBits;
    var b := ItemBits(CiUnit, mask);
    UnitAttentive(r, CiUnit, mask);
    UnitAttentive(Feed(r, b), CiUnit, mask);
    FeedConcat(r, b, b);
    UnitAttentive(Feed(r, b + b), CiUnit, mask);
    FeedConcat(r, b + b, b);
    UnitAttentive(Feed(r, b + b + b), CiUnit, mask);
    FeedConcat(r, b + b + b, b);
  }

  /** Three CM or JM sequences are decoded. */
  lemma AfterCm(r: Receiver, mask: Modes)
    requires Attentive(r, mask)
    ensures var b := ItemBits(CmUnit, mask); var f := Feed(r, b + b + b); Attentive(f, mask) && f.kind == CM && f.gotCm
  {
    hide Feed, Boundary, Counting, ItemBits;
    var b := ItemBits(CmUnit, mask);
    UnitAttentive(r, CmUnit, mask);
    UnitAttentive(Feed(r, b), CmUnit, mask);
    FeedConcat(r, b, b);
    UnitAttentive(Feed(r, b + b), CmUnit, mask);
    FeedConcat(r, b + b, b);
    ThreeUnits(r, mask);
    ThreeBits(mask);
  }

  lemma ThreeBits(mask: Modes)
    ensures var b := ItemBits(CmUnit, mask); StreamBits([CmUnit, CmUnit, CmUnit], mask) == b + b + b
  {
    hide ItemBits, StreamBits;
    var b := ItemBits(CmUnit, mask);
    NothingSent([], mask);
    OneItem([], CmUnit, mask);
    OneItem([CmUnit], CmUnit, mask);
    OneItem([CmUnit, CmUnit], CmUnit, mask);
    assert [] + [CmUnit] == [CmUnit] && [CmUnit] + [CmUnit] == [CmUnit, CmUnit];
    assert [CmUnit, CmUnit] + [CmUnit] == [CmUnit, CmUnit, CmUnit];
    assert [] + b == b;
  }

  // ----- the stages -----

  /** The caller sends its CM once. */
  lemma OfferOnce(s: System, ms: seq<Move>, now: nat, c: Endpoint, a: Endpoint) returns (ms': seq<Move>)
    requires Leads(s, ms, now, c, a) && c.state == CMSend && c.tx == [] && !c.rx.gotCm
    ensures Leads(s, ms', now, c, Heard(a, ItemBits(CmUnit, c.mask)))
  {
    hide Leads, Heard, ItemBits, PutWords, CmWords, CjWords;
    PutCm(c.mask);
    var more := CallC(s, ms, now, c, a);
    ms' := QueueToA(s, more, now, c.(tx := PutWords([], CmWords(c.mask))), a, ItemBits(CmUnit, c.mask));
  }

  /** The answerer sends its JM once. */
  lemma AnswerOnce(s: System, ms: seq<Move>, now: nat, c: Endpoint, a: Endpoint) returns (ms': seq<Move>)
    requires Leads(s, ms, now, c, a) && a.state == JMSend && a.tx == [] && !a.rx.gotCj && now < a.connectTimer
    ensures Leads(s, ms', now, Heard(c, ItemBits(CmUnit, a.common)), a)
  {
    hide Leads, Heard, ItemBits, PutWords, CmWords, CjWords;
    PutCm(a.common);
    var more := CallA(s, ms, now, c, a);
    ms' := QueueToC(s, more, now, c, a.(tx := PutWords([], CmWords(a.common))), ItemBits(CmUnit, a.common));
  }

  lemma OfferThrice(s: System, ms: seq<Move>, now: nat, c: Endpoint, a: Endpoint) returns (ms': seq<Move>)
    requires Leads(s, ms, now, c, a) && c.state == CMSend && c.tx == [] && !c.rx.gotCm
    ensures var b := ItemBits(CmUnit, c.mask); Leads(s, ms', now, c, Heard(a, b + b + b))
  {
    hide Leads, Heard, ItemBits;
    var b := ItemBits(CmUnit, c.mask);
    ms' := OfferOnce(s, ms, now, c, a);
    ms' := OfferOnce(s, ms', now, c, Heard(a, b));
    HeardMore(a, b, b);
    ms' := OfferOnce(s, ms', now, c, Heard(a, b + b));
    HeardMore(a, b + b, b);
  }

  lemma AnswerThrice(s: System, ms: seq<Move>, now: nat, c: Endpoint, a: Endpoint) returns (ms': seq<Move>)
    requires Leads(s, ms, now, c, a) && a.state == JMSend && a.tx == [] && !a.rx.gotCj && now < a.connectTimer
    ensures var b := ItemBits(CmUnit, a.common); Leads(s, ms', now, Heard(c, b + b + b), a)
  {
    hide Leads, Heard, ItemBits;
    var b := ItemBits(CmUnit, a.common);
    ms' := AnswerOnce(s, ms, now, c, a);
    ms' := AnswerOnce(s, ms', now, Heard(c, b), a);
    HeardMore(c, b, b);
    ms' := AnswerOnce(s, ms', now, Heard(c, b + b), a);
    HeardMore(c, b + b, b);
  }

  /** The answerer waits for a CM, the caller's CI sequences have passed and it has heard ANSam. */
  predicate Opened(c: Endpoint, a: Endpoint, now: nat) {
    && c.state == GotAnsam && c.tx == [] && c.ciTimer == now + 6400
    && a.state == CMWait && a.tx == [] && a.connectTimer == now + 40000 && Attentive(a.rx, c.mask)
  }

  lemma Opening(cm: Modes, am: Modes, ct: nat, at: nat, now: nat) returns (ms: seq<Move>, c: Endpoint, a: Endpoint)
    requires now >= ct + 8000 && now >= at + 1600
    ensures Leads(Call(cm, am, ct, at), ms, now, c, a) && Opened(c, a, now) && c.mask == cm && a.mask == am
  {
    hide Leads, Attentive, ItemBits, PutWords, Feed, CmWords, CjWords;
    var s := Call(cm, am, ct, at);
    c, a := Init(true, cm, ct), Init(false, am, at);
    AtStart(cm, am, ct, at, now);
    ms := CallC(s, [], now, c, a);
    c := Process(c, now).e;
    ms := CallC(s, ms, now, c, a);
    c := Process(c, now).e;
    ms := CallA(s, ms, now, c, a);
    a := Process(a, now).e;
    PutCi(cm);
    var b := ItemBits(CiUnit, cm);
    FreshAttentive(cm);
    AfterCi(FRESH, cm);
    ms := QueueToA(s, ms, now, c, a, b + b + b + b);
    c, a := c.(tx := []), Heard(a, b + b + b + b);
    ms := CallC(s, ms, now, c, a);
    c := Process(c, now).e;
    ms := Tone(s, ms, now, c, a);
    c := c.(ansam := true);
    ms := CallC(s, ms, now, c, a);
    c := Process(c, now).e;
  }

  lemma AtStart(cm: Modes, am: Modes, ct: nat, at: nat, now: nat)
    ensures Leads(Call(cm, am, ct, at), [], now, Init(true, cm, ct), Init(false, am, at))
  {
  }

  /** Both have decoded the other's sequence; the caller's queue is empty. */
  predicate Exchanged(c: Endpoint, a: Endpoint, now: nat) {
    && c.state == CMSend && c.tx == [] && c.rx.gotCm
    && a.state == JMSend && a.tx == [] && a.connectTimer == now + 40000 && a.selected != NONE
    && a.rx.kind == CM && Counting(a.rx)
  }

  lemma Offering(s: System, now: nat, c: Endpoint, a: Endpoint) returns (ms: seq<Move>, c': Endpoint, a': Endpoint)
    requires Leads(s, [], now + 6400, c, a) && Opened(c, a, now)
    ensures Leads(s, ms, now + 6400, c', a') && Exchanged(c', a', now + 6400)
  {
    hide Leads, Attentive, ItemBits, PutWords, Feed, CmWords, CjWords, SelectModulation, Common;
    var t := now + 6400;
    ms := CallC(s, [], t, c, a);
    c' := Process(c, t).e;
    ms := OfferThrice(s, ms, t, c', a);
    var b := ItemBits(CmUnit, c'.mask);
    AfterCm(a.rx, c'.mask);
    AttentiveHasNoCj(Feed(a.rx, b + b + b), c'.mask);
    a' := Heard(a, b + b + b);
    ms := CallA(s, ms, t, c', a');
    a' := Process(a', t).e;
    ms := AnswerThrice(s, ms, t, c', a');
    var j := ItemBits(CmUnit, a'.common);
    FreshAttentive(a'.common);
    AfterCm(FRESH, a'.common);
    c' := Heard(c', j + j + j);
  }

  lemma AttentiveHasNoCj(r: Receiver, mask: Modes)
    requires Attentive(r, mask)
    ensures !r.gotCj && Counting(r)
  {
  }

  /** Each waits for its last timer. */
  predicate Closed(c: Endpoint, a: Endpoint, now: nat) {
    && c.state == SigC && c.startTimer == now + 600 && c.selected != NONE
    && a.state == SigA && a.connectTimer == now + 600 && a.selected != NONE
  }

  lemma Closing(s: System, ms: seq<Move>, now: nat, c: Endpoint, a: Endpoint)
    returns (ms': seq<Move>, c': Endpoint, a': Endpoint)
    requires Leads(s, ms, now, c, a) && Exchanged(c, a, now)
    ensures Leads(s, ms', now, c', a') && Closed(c', a', now)
  {
    hide Leads, PutWords, Feed, CmWords, CjWords, SelectModulation, Common, FlatWords, Counting;
    CjBits();
    ms' := CallC(s, ms, now, c, a);
    c' := Process(c, now).e;
    ms' := QueueToA(s, ms', now, c', a, FlatWords(CjWords()));
    CjAfter(a.rx);
    c', a' := c'.(tx := []), Heard(a, FlatWords(CjWords()));
    ms' := CallA(s, ms', now, c', a');
    a' := Process(a', now).e;
    ms' := CallC(s, ms', now, c', a');
    c' := Process(c', now).e;
  }

  lemma CjBits()
    ensures PutWords([], CjWords()) == FlatWords(CjWords())
  {
    hide Word;
    PutWordsFits([], CjWords());
    assert [] + FlatWords(CjWords()) == FlatWords(CjWords());
  }

  lemma BothReturn(s: System, now: nat, c: Endpoint, a: Endpoint) returns (ms: seq<Move>)
    requires At(s, c, a) && Closed(c, a, now)
    ensures AllAt(ms, now + 600) && Finished(Run(s, ms).caller) && Finished(Run(s, ms).answerer)
  {
    hide Run;
    var m, k := Move(true, CallHandler(now + 600)), Move(false, CallHandler(now + 600));
    RunOne(s, m);
    RunOne(Next(s, m), k);
    RunConcat(s, [m], [k]);
    assert [m] + [k] == [m, k];
    ms := [m, k];
  }

  /** The handlers are called at times that do not decrease, from `from` to `to`. */
  predicate Timely(ms: seq<Move>, from: nat, to: nat) {
    && (forall i :: 0 <= i < |ms| && ms[i].ev.CallHandler? ==> from <= ms[i].ev.now <= to)
    && (forall i, j :: 0 <= i < j < |ms| && ms[i].ev.CallHandler? && ms[j].ev.CallHandler? ==>
          ms[i].ev.now <= ms[j].ev.now)
  }

  lemma ThreeTimes(a: seq<Move>, b: seq<Move>, c: seq<Move>, x: nat, y: nat, z: nat)
    requires AllAt(a, x) && AllAt(b, y) && AllAt(c, z) && x <= y <= z
    ensures Timely(a + b + c, x, z)
  {
  }

  /**
   Whatever both sides offer and whenever they start, some run has both of them finished, on the best modulation
   they have in common. Bits take no time here; the timers need 15000 samples after the later start.
   */
  lemma Completion(cm: Modes, am: Modes, ct: nat, at: nat)
    ensures var start := if ct > at then ct else at;
      exists ms :: var s := Run(Call(cm, am, ct, at), ms);
        && Timely(ms, start, start + 15000) && Finished(s.caller) && Finished(s.answerer)
        && s.caller.ret == SelectModulation(Common(cm, am)) && s.answerer.ret == s.caller.ret
  {
    hide Run, Next, Call, Process, Opened, Exchanged, Closed, Finished, SelectModulation, Common, AllAt, At, Timely;
    var s := Call(cm, am, ct, at);
    var now := (if ct > at then ct else at) + 8000;
    var first, c, a := Opening(cm, am, ct, at, now);
    Standing(s, first, now, c, a, now + 6400);
    var second, c', a' := Offering(Run(s, first), now, c, a);
    second, c', a' := Closing(Run(s, first), second, now + 6400, c', a');
    RunConcat(s, first, second);
    var third := BothReturn(Run(s, first + second), now + 6400, c', a');
    RunConcat(s, first + second, third);
    ThreeTimes(first, second, third, now, now + 6400, now + 7000);
    Wider(first + second + third, now, now + 7000, now - 8000, now + 7000);
    Agreement(cm, am, ct, at, first + second + third);
  }

  lemma Standing(s: System, ms: seq<Move>, now: nat, c: Endpoint, a: Endpoint, later: nat)
    requires Leads(s, ms, now, c, a)
    ensures Leads(Run(s, ms), [], later, c, a)
  {
  }

  lemma Wider(ms: seq<Move>, from: nat, to: nat, from': nat, to': nat)
    requires Timely(ms, from, to) && from' <= from && to <= to'
    ensures Timely(ms, from', to')
  {
  }
}
