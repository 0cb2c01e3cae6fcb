/** Two V.8 endpoints joined by two error-free, in-order bit channels. */
module V8System {
  import opened Bits
  import opened V8Codec
  import opened V8Receiver
  import opened V8Words
  import opened V8Framing
  import opened V8Protocol

  /**
   A side of the call: the endpoint, the bits it has sent so far, and how many the other side has taken.
   What has returned is out of the protocol. The last three fields only record what happened.
   */
  datatype Side = Side(e: Endpoint, sent: seq<bit>, taken: nat, ret: Modes,
                       items: seq<Item>, from: nat, heard: seq<bit>)

  datatype System = System(caller: Side, answerer: Side)

  datatype Event = CallHandler(now: nat) | SendBit | TakeBit | HearTone

  function Start(calling: bool, mask: Modes, now: nat): Side {
    Side(Init(calling, mask, now), [], 0, NONE, [], 0, [])
  }

  /** The items that stand for what a call of the handler puts on the transmit queue. */
  function Queued(e: Endpoint): seq<Item> {
    if e.state == SendCI then [CiUnit, CiUnit, CiUnit, CiUnit]
    else if e.state == CMSend && !e.rx.gotCm && e.tx == [] then [CmUnit]
    else []
  }

  function QueuedAt(e: Endpoint, now: nat): seq<Item> {
    if e.state == JMSend then
      (if now < e.connectTimer && !e.rx.gotCj && e.tx == [] then [CmUnit] else [])
    else Queued(e)
  }

  /** Whether a call of the handler makes the receiver start afresh. */
  predicate Restarts(e: Endpoint, now: nat) {
    (e.state == GotAnsam && now >= e.ciTimer) || (e.state == Wait && now >= e.connectTimer)
  }

  /** A call of the handler; other.taken bits of this side, and this side's count of the other's, are unchanged. */
  function Handle(s: Side, other: Side, now: nat): Side {
    var r := Process(s.e, now);
    var s' := s.(e := r.e, ret := r.ret, items := s.items + QueuedAt(s.e, now));
    if Restarts(s.e, now) then s'.(from := other.taken, heard := []) else s'
  }

  /** One more bit onto the line. */
  function Send(s: Side): Side {
    s.(e := Emit(s.e), sent := s.sent + [NextBit(s.e)], items := if s.e.tx == [] then s.items + [Idle] else s.items)
  }

  /** One side takes the next bit of the other. */
  function Take(s: Side, other: Side): Side
    requires other.taken < |other.sent|
  {
    var b := other.sent[other.taken];
    s.(e := Hear(s.e, b), heard := if Receiving(s.e.state) then s.heard + [b] else s.heard)
  }

  /** The effect of an event at one side; nothing happens at a side that has returned. */
  function Act(s: Side, other: Side, ev: Event): (Side, Side) {
    if s.ret != NONE then (s, other)
    else match ev
      case CallHandler(now) => (Handle(s, other, now), other)
      case SendBit => (if Sending(s.e.state) then Send(s) else s, other)
      case TakeBit =>
        if other.taken < |other.sent| then (Take(s, other), other.(taken := other.taken + 1)) else (s, other)
      case HearTone => (if Listening(s.e.state) then s.(e := s.e.(ansam := true)) else s, other)
  }

  datatype Move = Move(byCaller: bool, ev: Event)

  function Next(s: System, m: Move): System {
    if m.byCaller then
      var r := Act(s.caller, s.answerer, m.ev);
      System(r.0, r.1)
    else
      var r := Act(s.answerer, s.caller, m.ev);
      System(r.1, r.0)
  }

  function Run(s: System, ms: seq<Move>): System {
    if ms == [] then s else Next(Run(s, ms[..|ms| - 1]), ms[|ms| - 1])
  }

  lemma {:induction false} RunConcat(s: System, a: seq<Move>, b: seq<Move>)
    ensures Run(s, a + b) == Run(Run(s, a), b)
    decreases b
  {
    hide Next;
    if b == [] {
      assert a + b == a;
    } else {
      var n := |b| - 1;
      RunConcat(s, a, b[..n]);
      assert a + b == (a + b[..n]) + [b[n]];
      assert (a + b)[..|a + b| - 1] == a + b[..n];
    }
  }

  lemma RunOne(s: System, m: Move)
    ensures Run(s, [m]) == Next(s, m)
  {
    hide Next;
    assert [m][..0] == [];
    assert Run(s, []) == s;
  }

  /** All calls of the handlers are at this time. */
  predicate AllAt(ms: seq<Move>, now: nat) {
    forall i :: 0 <= i < |ms| && ms[i].ev.CallHandler? ==> ms[i].ev.now == now
  }

  // ----- queues -----

  lemma {:induction false} PutWordsFits(tx: seq<byte>, vs: seq<nat>)
    requires |tx| + 10 * |vs| <= TXSIZE
    ensures PutWords(tx, vs) == tx + FlatWords(vs) && |FlatWords(vs)| == 10 * |vs|
    decreases vs
  {
    hide Word;
    if vs != [] {
      var q: seq<byte> := tx + Word(vs[0]);
      PutWordsFits(q, vs[1..]);
      assert q + FlatWords(vs[1..]) == tx + (Word(vs[0]) + FlatWords(vs[1..]));
    } else {
      assert tx + FlatWords(vs) == tx;
    }
  }

  function FlatWords(vs: seq<nat>): seq<bit> {
    if vs == [] then [] else Word(vs[0]) + FlatWords(vs[1..])
  }

  lemma {:induction false} FlatWordsConcat(a: seq<nat>, b: seq<nat>)
    ensures FlatWords(a + b) == FlatWords(a) + FlatWords(b)
    decreases a
  {
    hide Word;
    if a == [] {
      assert a + b == b;
    } else {
      FlatWordsConcat(a[1..], b);
      assert (a + b)[1..] == a[1..] + b;
    }
  }

  /** The words of a CM are the bits of a CM item. */
  lemma CmWordsBits(mask: Modes)
    ensures FlatWords(CmWords(mask)) == ItemBits(CmUnit, mask)
  {
    hide Word, Octets;
    var o, vs := Octets(mask), CmWords(mask);
    var ws := [Word(ONES), SyncWord(CM)] + OctetWords(o);
    assert ws == [Word(vs[0]), Word(vs[1]), Word(vs[2]), Word(vs[3]), Word(vs[4]), Word(vs[5])];
    SameWords(vs, ws);
  }

  lemma {:induction false} SameWords(vs: seq<nat>, ws: seq<seq<bit>>)
    requires |vs| == |ws| && forall i :: 0 <= i < |vs| ==> ws[i] == Word(vs[i])
    ensures FlatWords(vs) == Flat(ws)
    decreases vs
  {
    hide Word;
    if vs != [] { SameWords(vs[1..], ws[1..]); }
  }

  lemma CiWordsBits(mask: Modes)
    ensures FlatWords(CI_WORDS) == ItemBits(CiUnit, mask)
  {
    hide Word;
    var ws := [Word(ONES), SyncWord(CI)] + OctetWords([CALL_FUNC_DATA]);
    assert ws == [Word(CI_WORDS[0]), Word(CI_WORDS[1]), Word(CI_WORDS[2])];
    SameWords(CI_WORDS, ws);
  }

  // ----- what every run keeps -----

  predicate Flushed(st: State) {
    st == CJSend || st == SigC
  }

  /** States after the choice of a modulation. */
  predicate Chosen(st: State) {
    st == CJSend || st == SigC || st == JMSend || st == SigA
  }

  /** States in which nothing waits to be sent. */
  predicate Idling(st: State) {
    st == Wait1Second || st == SendCI || st == CIOff || st == GotAnsam || st == Wait || st == CMWait
  }

  predicate RightStates(e: Endpoint) {
    if e.calling then e.state !in {Wait, CMWait, JMSend, SigA} else e.state in {Wait, CMWait, JMSend, SigA}
  }

  /** The modulations a side's CM or JM offers. */
  function Offered(e: Endpoint): Modes {
    if e.calling then e.mask else e.common
  }

  /** What is sent and queued is whole sequences and idle ones, until the queue is flushed; it never overflows. */
  predicate SendOk(s: Side) {
    && s.taken <= |s.sent| && |s.e.tx| <= 120
    && (!Flushed(s.e.state) ==> s.sent + s.e.tx == StreamBits(s.items, Offered(s.e)))
    && (Idling(s.e.state) ==> s.e.tx == [])
    && (!s.e.calling && !Chosen(s.e.state) ==> s.sent == [] && s.items == [])
  }

  /** The receiver has heard a stretch of the other side's bits. */
  predicate HearOk(s: Side, other: Side) {
    && s.from + |s.heard| <= other.taken <= |other.sent|
    && s.e.rx == Feed(FRESH, s.heard) && s.heard == other.sent[s.from..s.from + |s.heard|]
    && (Receiving(s.e.state) ==> s.from + |s.heard| == other.taken)
  }

  predicate ChoiceOk(s: Side) {
    && (Chosen(s.e.state) ==>
         s.e.rx.gotCm && s.e.common == Common(s.e.mask, s.e.rx.decoded) && s.e.selected == SelectModulation(s.e.common))
    && (s.ret != NONE && (s.e.state == SigC || s.e.state == SigA) ==> s.ret == s.e.selected)
  }

  predicate SideOk(s: Side, other: Side) {
    RightStates(s.e) && SendOk(s) && HearOk(s, other) && ChoiceOk(s)
  }

  /** What has been decoded is what was offered, and the caller can only have heard an answerer that has chosen. */
  predicate Truthful(s: System) {
    && (s.answerer.e.rx.gotCm ==> s.answerer.e.rx.decoded == Common(s.caller.e.mask, KNOWN))
    && (s.caller.e.rx.gotCm ==>
          Chosen(s.answerer.e.state) && s.caller.e.rx.decoded == Common(s.answerer.e.common, KNOWN))
    && (Flushed(s.caller.e.state) ==> Chosen(s.answerer.e.state))
  }

  predicate Ok(s: System) {
    && s.caller.e.calling && !s.answerer.e.calling
    && SideOk(s.caller, s.answerer) && SideOk(s.answerer, s.caller) && Truthful(s)
  }

  // ----- one call of the handler -----

  lemma NothingSent(items: seq<Item>, mask: Modes)
    ensures items == [] ==> StreamBits(items, mask) == []
  {
  }

  lemma OneItem(items: seq<Item>, item: Item, mask: Modes)
    ensures StreamBits(items + [item], mask) == StreamBits(items, mask) + ItemBits(item, mask)
  {
    assert (items + [item])[..|items|] == items;
  }

  lemma FourItems(items: seq<Item>, mask: Modes)
    ensures var b := ItemBits(CiUnit, mask);
      StreamBits(items + [CiUnit, CiUnit, CiUnit, CiUnit], mask) == StreamBits(items, mask) + (b + b + b + b)
  {
    hide ItemBits, StreamBits;
    var b := ItemBits(CiUnit, mask);
    OneItem(items, CiUnit, mask);
    OneItem(items + [CiUnit], CiUnit, mask);
    OneItem(items + [CiUnit] + [CiUnit], CiUnit, mask);
    OneItem(items + [CiUnit] + [CiUnit] + [CiUnit], CiUnit, mask);
    assert items + [CiUnit, CiUnit, CiUnit, CiUnit] == items + [CiUnit] + [CiUnit] + [CiUnit] + [CiUnit];
    var s := StreamBits(items, mask);
    assert s + b + b + b + b == s + (b + b + b + b);
  }

  /** The queue after the CI sequences are put on it. */
  lemma PutCi(mask: Modes)
    ensures var q := PutWords([], CI_WORDS + CI_WORDS + CI_WORDS + CI_WORDS); var b := ItemBits(CiUnit, mask);
      q == b + b + b + b && |q| == 120
  {
    hide Word, ItemBits;
    var w := CI_WORDS;
    PutWordsFits([], w + w + w + w);
    FlatWordsConcat(w, w);
    FlatWordsConcat(w + w, w);
    FlatWordsConcat(w + w + w, w);
    CiWordsBits(mask);
    assert [] + FlatWords(w + w + w + w) == FlatWords(w + w + w + w);
  }

  /** The queue after a CM or JM is put on it. */
  lemma PutCm(mask: Modes)
    ensures PutWords([], CmWords(mask)) == ItemBits(CmUnit, mask) && |PutWords([], CmWords(mask))| == 60
  {
    hide Word, ItemBits;
    PutWordsFits([], CmWords(mask));
    CmWordsBits(mask);
    assert [] + FlatWords(CmWords(mask)) == FlatWords(CmWords(mask));
  }

  lemma PutCj()
    ensures |PutWords([], CjWords())| == 90
  {
    hide Word;
    PutWordsFits([], CjWords());
  }

  lemma HandleCI(s: Side, other: Side, now: nat)
    requires RightStates(s.e) && SendOk(s) && s.e.state == SendCI
    ensures RightStates(Handle(s, other, now).e) && SendOk(Handle(s, other, now))
  {
    hide PutWords, StreamBits, ItemBits;
    PutCi(s.e.mask);
    FourItems(s.items, s.e.mask);
  }

  lemma HandleCM(s: Side, other: Side, now: nat)
    requires RightStates(s.e) && SendOk(s) && s.e.state == CMSend
    ensures RightStates(Handle(s, other, now).e) && SendOk(Handle(s, other, now))
  {
    hide PutWords, StreamBits, ItemBits, CmWords, SelectModulation, Common;
    assert s.items + [] == s.items;
    PutCm(s.e.mask);
    PutCj();
    OneItem(s.items, CmUnit, s.e.mask);
  }

  lemma HandleJM(s: Side, other: Side, now: nat)
    requires RightStates(s.e) && SendOk(s) && s.e.state == JMSend
    ensures RightStates(Handle(s, other, now).e) && SendOk(Handle(s, other, now))
  {
    hide PutWords, StreamBits, ItemBits, CmWords, Common, SelectModulation;
    assert s.items + [] == s.items;
    PutCm(s.e.common);
    OneItem(s.items, CmUnit, s.e.common);
  }

  lemma HandleOther(s: Side, other: Side, now: nat)
    requires RightStates(s.e) && SendOk(s) && s.e.state !in {SendCI, CMSend, JMSend}
    ensures RightStates(Handle(s, other, now).e) && SendOk(Handle(s, other, now))
  {
    hide PutWords, StreamBits, SelectModulation, Common, CmWords, CjWords;
    assert s.items + [] == s.items;
    NothingSent(s.items, Offered(Handle(s, other, now).e));
  }

  /** What a side has queued and sent stays in order over a call. */
  lemma HandleSend(s: Side, other: Side, now: nat)
    requires RightStates(s.e) && SendOk(s)
    ensures RightStates(Handle(s, other, now).e) && SendOk(Handle(s, other, now))
  {
    hide Handle, SendOk, RightStates;
    match s.e.state
    case SendCI => HandleCI(s, other, now);
    case CMSend => HandleCM(s, other, now);
    case JMSend => HandleJM(s, other, now);
    case _ => HandleOther(s, other, now);
  }

  lemma NothingHeard(r: Receiver)
    ensures Feed(r, []) == r
  {
  }

  /** A call either leaves the receiver alone or starts it afresh. */
  lemma HandleHear(s: Side, other: Side, now: nat)
    requires HearOk(s, other)
    ensures HearOk(Handle(s, other, now), other)
  {
    hide PutWords, SelectModulation, CmWords, CjWords, Common, Feed;
    NothingHeard(FRESH);
    HandleReceiver(s.e, now);
  }

  lemma HandleReceiver(e: Endpoint, now: nat)
    ensures var f := Process(e, now).e;
      && (if Restarts(e, now) then f.rx == FRESH else f.rx == e.rx && (Receiving(f.state) ==> Receiving(e.state)))
  {
    hide PutWords, SelectModulation, CmWords, CjWords, Common;
  }

  /** The choice is made from what was decoded, and is what is returned. */
  lemma HandleChoice(s: Side, other: Side, now: nat)
    requires ChoiceOk(s) && s.ret == NONE
    ensures ChoiceOk(Handle(s, other, now))
  {
    hide PutWords, SelectModulation, CmWords, CjWords, Common;
  }

  /** A call changes neither what was sent nor what was taken, and keeps a choice that was made. */
  lemma HandleFrame(s: Side, other: Side, now: nat)
    ensures var t := Handle(s, other, now);
      && t.sent == s.sent && t.taken == s.taken && t.e.calling == s.e.calling && t.e.mask == s.e.mask
      && (Chosen(s.e.state) ==> Chosen(t.e.state) && t.e.common == s.e.common && t.e.rx == s.e.rx)
      && (t.e.rx == s.e.rx || t.e.rx == FRESH)
      && (Flushed(t.e.state) && !Flushed(s.e.state) ==> s.e.rx.gotCm)
  {
    hide PutWords, SelectModulation, CmWords, CjWords, Common, Feed;
  }

  // ----- one bit -----

  /** Sending a bit takes it from the queue, or adds an idle one. */
  lemma SendKeeps(s: Side, other: Side)
    requires RightStates(s.e) && SendOk(s) && HearOk(s, other) && ChoiceOk(s) && Sending(s.e.state)
    ensures SideOk(Send(s), other)
  {
    hide StreamBits, ItemBits, Feed, SelectModulation, Common;
    OneItem(s.items, Idle, Offered(s.e));
    if !Flushed(s.e.state) { SentOne(s.sent, s.e.tx, s.items, Offered(s.e)); }
  }

  lemma SentOne(sent: seq<bit>, tx: seq<byte>, items: seq<Item>, mask: Modes)
    requires sent + tx == StreamBits(items, mask)
    ensures tx == [] ==> (sent + [1]) + tx == StreamBits(items, mask) + ItemBits(Idle, mask)
    ensures tx != [] ==> (sent + [if tx[0] == 0 then 0 else 1]) + tx[1..] == StreamBits(items, mask)
  {
    hide StreamBits;
    if tx != [] {
      assert tx[0] == (sent + tx)[|sent|];
      assert tx == [tx[0]] + tx[1..];
    }
  }

  /** More sent by the other side does not change what was heard. */
  lemma HearGrows(s: Side, other: Side, other': Side)
    requires HearOk(s, other) && other.sent <= other'.sent && other'.taken == other.taken
    ensures HearOk(s, other')
  {
    hide Feed;
  }

  /** Taking a bit. */
  lemma TakeKeeps(s: Side, other: Side)
    requires HearOk(s, other) && other.taken < |other.sent|
    ensures HearOk(Take(s, other), other.(taken := other.taken + 1))
  {
    hide Feed, PutBit;
    if Receiving(s.e.state) { FeedSnoc(FRESH, s.heard, other.sent[other.taken]); }
  }

  lemma PutKeepsDecoded(r: Receiver, b: bit)
    requires r.gotCm
    ensures PutBit(r, b).gotCm && PutBit(r, b).decoded == r.decoded
  {
    FeedOne(r, b);
    DecodedStays(r, [b]);
  }

  lemma TakeChoice(s: Side, other: Side)
    requires ChoiceOk(s) && other.taken < |other.sent|
    ensures ChoiceOk(Take(s, other))
  {
    hide PutBit, SelectModulation, Common;
    if s.e.rx.gotCm { PutKeepsDecoded(s.e.rx, other.sent[other.taken]); }
  }

  /** Only what the other side offers can have been decoded, as long as its queue has not been flushed. */
  lemma HeardTruth(s: Side, other: Side)
    requires HearOk(s, other) && SendOk(other) && !Flushed(other.e.state) && s.e.rx.gotCm
    ensures s.e.rx.decoded == Common(Offered(other.e), KNOWN)
  {
    hide Feed, StreamBits, Common;
    var bits, to := StreamBits(other.items, Offered(other.e)), s.from + |s.heard|;
    Stretch(other.sent, other.e.tx, bits, s.from, to);
    OnlyTruth(other.items, Offered(other.e), s.from, to);
  }

  lemma Stretch(sent: seq<bit>, tx: seq<byte>, bits: seq<bit>, from: nat, to: nat)
    requires sent + tx == bits && from <= to <= |sent|
    ensures to <= |bits| && bits[from..to] == sent[from..to]
  {
    assert forall i :: from <= i < to ==> bits[i] == (sent + tx)[i];
  }

  /** A receiver that has decoded something has heard something. */
  lemma HeardSomething(s: Side, other: Side)
    requires HearOk(s, other) && s.e.rx.gotCm
    ensures other.sent != []
  {
  }

  // ----- whole runs -----

  lemma SendFrame(s: Side)
    ensures var t := Send(s);
      t.e == s.e.(tx := t.e.tx) && t.taken == s.taken && t.ret == s.ret && s.sent <= t.sent
  {
  }

  lemma TakeFrame(s: Side, other: Side)
    requires other.taken < |other.sent|
    ensures var t := Take(s, other);
      t.e == s.e.(rx := t.e.rx) && t.sent == s.sent && t.taken == s.taken && t.items == s.items && t.ret == s.ret
    ensures !Receiving(s.e.state) ==> Take(s, other).e.rx == s.e.rx
    ensures s.e.rx.gotCm ==> Take(s, other).e.rx.gotCm && Take(s, other).e.rx.decoded == s.e.rx.decoded
  {
    hide PutBit;
    if s.e.rx.gotCm { PutKeepsDecoded(s.e.rx, other.sent[other.taken]); }
  }

  /** What a side keeps of its own through a call of its handler. */
  lemma CallKeeps(s: Side, other: Side, now: nat)
    requires SideOk(s, other) && SideOk(other, s) && s.ret == NONE
    ensures SideOk(Handle(s, other, now), other) && SideOk(other, Handle(s, other, now))
  {
    hide SendOk, HearOk, ChoiceOk, RightStates, Handle;
    HandleSend(s, other, now);
    HandleHear(s, other, now);
    HandleChoice(s, other, now);
    HandleFrame(s, other, now);
    HearGrows(other, s, Handle(s, other, now));
  }

  lemma SendBitKeeps(s: Side, other: Side)
    requires SideOk(s, other) && SideOk(other, s) && Sending(s.e.state)
    ensures SideOk(Send(s), other) && SideOk(other, Send(s))
  {
    hide SendOk, HearOk, ChoiceOk, RightStates, Send;
    SendKeeps(s, other);
    SendFrame(s);
    HearGrows(other, s, Send(s));
  }

  lemma TakeBitKeeps(s: Side, other: Side)
    requires SideOk(s, other) && SideOk(other, s) && other.taken < |other.sent|
    ensures SideOk(Take(s, other), other.(taken := other.taken + 1))
    ensures SideOk(other.(taken := other.taken + 1), Take(s, other))
  {
    hide ChoiceOk, Take, Feed, StreamBits;
    TakeKeeps(s, other);
    TakeFrame(s, other);
    TakeChoice(s, other);
    ChoiceElsewhere(other, other.taken + 1);
  }

  lemma ChoiceElsewhere(s: Side, taken: nat)
    requires ChoiceOk(s)
    ensures ChoiceOk(s.(taken := taken))
  {
  }

  lemma ToneKeeps(s: Side, other: Side)
    requires SideOk(s, other) && SideOk(other, s)
    ensures var t := s.(e := s.e.(ansam := true)); SideOk(t, other) && SideOk(other, t)
  {
    hide Feed, StreamBits, Common, SelectModulation;
  }

  /** Nothing an event does at one side harms either side. */
  lemma ActKeeps(s: Side, other: Side, ev: Event)
    requires SideOk(s, other) && SideOk(other, s)
    ensures var r := Act(s, other, ev); SideOk(r.0, r.1) && SideOk(r.1, r.0)
  {
    hide SideOk, Handle, Send, Take;
    if s.ret == NONE {
      match ev
      case CallHandler(now) => CallKeeps(s, other, now);
      case SendBit => if Sending(s.e.state) { SendBitKeeps(s, other); }
      case TakeBit => if other.taken < |other.sent| { TakeBitKeeps(s, other); }
      case HearTone => ToneKeeps(s, other);
    }
  }

  /** What an event leaves unchanged at either side, as far as the truth of what was decoded goes. */
  predicate Undisturbed(s: Side, t: Side) {
    && t.e.calling == s.e.calling && t.e.mask == s.e.mask
    && (Chosen(s.e.state) ==> Chosen(t.e.state) && t.e.common == s.e.common)
    && (Flushed(t.e.state) && !Flushed(s.e.state) ==> s.e.rx.gotCm)
    && (t.e.rx.gotCm && s.e.rx.gotCm ==> t.e.rx.decoded == s.e.rx.decoded)
  }

  lemma CallUndisturbed(s: Side, other: Side, now: nat)
    ensures Undisturbed(s, Handle(s, other, now)) && (Handle(s, other, now).e.rx.gotCm ==> s.e.rx.gotCm)
  {
    hide Handle;
    HandleFrame(s, other, now);
  }

  lemma ActUndisturbed(s: Side, other: Side, ev: Event)
    ensures var r := Act(s, other, ev);
      && Undisturbed(s, r.0) && r.1.e == other.e
      && (r.0.e.rx.gotCm && !s.e.rx.gotCm ==>
            s.ret == NONE && ev == TakeBit && other.taken < |other.sent| && r.1.sent == other.sent)
  {
    hide Handle, Send, Take, Undisturbed;
    Untouched(s);
    if s.ret == NONE {
      match ev
      case CallHandler(now) => CallUndisturbed(s, other, now);
      case SendBit => SendFrame(s); SendUndisturbed(s);
      case TakeBit => if other.taken < |other.sent| { TakeFrame(s, other); TakeUndisturbed(s, other); }
      case HearTone => ToneUndisturbed(s);
    }
  }

  lemma Untouched(s: Side)
    ensures Undisturbed(s, s)
  {
  }

  lemma SendUndisturbed(s: Side)
    ensures Undisturbed(s, Send(s))
  {
    hide Send;
    SendFrame(s);
  }

  lemma ToneUndisturbed(s: Side)
    ensures Undisturbed(s, s.(e := s.e.(ansam := true)))
  {
  }

  lemma TakeUndisturbed(s: Side, other: Side)
    requires other.taken < |other.sent|
    ensures Undisturbed(s, Take(s, other))
  {
    hide Take;
    TakeFrame(s, other);
  }

  lemma CallerStaysTrue(s: System, ev: Event)
    requires Ok(s)
    ensures Truthful(Next(s, Move(true, ev)))
  {
    hide SideOk, Act, KNOWN, Common;
    var r := Act(s.caller, s.answerer, ev);
    ActKeeps(s.caller, s.answerer, ev);
    ActUndisturbed(s.caller, s.answerer, ev);
    if r.0.e.rx.gotCm && !s.caller.e.rx.gotCm { FromAnswerer(r.0, r.1); }
  }

  /** What the caller decodes comes from an answerer that has chosen. */
  lemma FromAnswerer(c: Side, a: Side)
    requires SideOk(c, a) && SideOk(a, c) && !a.e.calling && c.e.rx.gotCm
    ensures Chosen(a.e.state) && c.e.rx.decoded == Common(a.e.common, KNOWN)
  {
    hide Feed, StreamBits, Common, ChoiceOk;
    HeardTruth(c, a);
    HeardSomething(c, a);
  }

  /** What the answerer decodes before it chooses comes from a caller that has not flushed. */
  lemma FromCaller(c: Side, a: Side)
    requires SideOk(c, a) && SideOk(a, c) && c.e.calling && a.e.rx.gotCm && !Flushed(c.e.state)
    ensures a.e.rx.decoded == Common(c.e.mask, KNOWN)
  {
    hide Feed, StreamBits, Common, ChoiceOk;
    HeardTruth(a, c);
  }

  lemma ChosenHasDecoded(s: Side, other: Side)
    requires SideOk(s, other) && Chosen(s.e.state)
    ensures s.e.rx.gotCm
  {
  }

  lemma AnswererStaysTrue(s: System, ev: Event)
    requires Ok(s)
    ensures Truthful(Next(s, Move(false, ev)))
  {
    hide SideOk, Act, KNOWN, Common;
    var r := Act(s.answerer, s.caller, ev);
    ActKeeps(s.answerer, s.caller, ev);
    ActUndisturbed(s.answerer, s.caller, ev);
    if r.0.e.rx.gotCm && !s.answerer.e.rx.gotCm {
      if Flushed(s.caller.e.state) {
        ChosenHasDecoded(s.answerer, s.caller);
      } else {
        FromCaller(r.1, r.0);
      }
    }
  }

  lemma NextOk(s: System, m: Move)
    requires Ok(s)
    ensures Ok(Next(s, m))
  {
    hide SideOk, Act, Truthful;
    if m.byCaller {
      ActKeeps(s.caller, s.answerer, m.ev);
      ActUndisturbed(s.caller, s.answerer, m.ev);
      CallerStaysTrue(s, m.ev);
    } else {
      ActKeeps(s.answerer, s.caller, m.ev);
      ActUndisturbed(s.answerer, s.caller, m.ev);
      AnswererStaysTrue(s, m.ev);
    }
  }

  function Call(callerMask: Modes, answererMask: Modes, callerStart: nat, answererStart: nat): System {
    System(Start(true, callerMask, callerStart), Start(false, answererMask, answererStart))
  }

  lemma StartOk(cm: Modes, am: Modes, ct: nat, at: nat)
    ensures Ok(Call(cm, am, ct, at))
  {
    hide Common, SelectModulation;
    NothingHeard(FRESH);
    NothingSent([], cm);
    NothingSent([], am);
  }

  lemma {:induction false} RunOk(cm: Modes, am: Modes, ct: nat, at: nat, ms: seq<Move>)
    ensures var s := Run(Call(cm, am, ct, at), ms);
      Ok(s) && s.caller.e.mask == cm && s.answerer.e.mask == am
  {
    hide Ok, Next, Call;
    if ms == [] {
      StartOk(cm, am, ct, at);
      CallMasks(cm, am, ct, at);
    } else {
      var n := |ms| - 1;
      RunOk(cm, am, ct, at, ms[..n]);
      NextOk(Run(Call(cm, am, ct, at), ms[..n]), ms[n]);
      NextMasks(Run(Call(cm, am, ct, at), ms[..n]), ms[n]);
    }
  }

  lemma CallMasks(cm: Modes, am: Modes, ct: nat, at: nat)
    ensures var s := Call(cm, am, ct, at); s.caller.e.mask == cm && s.answerer.e.mask == am
  {
  }

  lemma NextMasks(s: System, m: Move)
    ensures Next(s, m).caller.e.mask == s.caller.e.mask && Next(s, m).answerer.e.mask == s.answerer.e.mask
  {
    hide Act;
    if m.byCaller { ActUndisturbed(s.caller, s.answerer, m.ev); } else { ActUndisturbed(s.answerer, s.caller, m.ev); }
  }

  /** A side that has returned after choosing, so not because a timer ran out. */
  predicate Finished(s: Side) {
    s.ret != NONE && (s.e.state == SigC || s.e.state == SigA)
  }

  /** In every run in which both sides finish, both return the best modulation they have in common. */
  lemma Agreement(cm: Modes, am: Modes, ct: nat, at: nat, ms: seq<Move>)
    ensures var s := Run(Call(cm, am, ct, at), ms);
      Finished(s.caller) && Finished(s.answerer) ==>
        s.caller.ret == SelectModulation(Common(cm, am)) && s.answerer.ret == s.caller.ret
  {
    hide Run, Call, SelectModulation, Common, Feed, StreamBits;
    RunOk(cm, am, ct, at, ms);
    ChoicesAgree(cm, am);
  }

  /** No run ever overflows a transmit queue. */
  lemma NeverFull(cm: Modes, am: Modes, ct: nat, at: nat, ms: seq<Move>)
    ensures var s := Run(Call(cm, am, ct, at), ms); |s.caller.e.tx| <= 120 && |s.answerer.e.tx| <= 120
  {
    hide Run, Call, Feed, StreamBits, Truthful, ChoiceOk;
    RunOk(cm, am, ct, at, ms);
  }

  /**
   A flush of the caller's queue at any bit of its stream, followed by CJ, is heard as CJ
   by a receiver that has synchronised, wherever in the stream it started.
   */
  lemma CjHeard(items: seq<Item>, mask: Modes, from: nat, to: nat)
    requires from <= to <= |StreamBits(items, mask)|
    requires Feed(FRESH, StreamBits(items, mask)[from..to]).kind != NoSync
    ensures Feed(FRESH, StreamBits(items, mask)[from..to] + FlatWords(CjWords())).gotCj
  {
    hide Feed, StreamBits;
    var heard := StreamBits(items, mask)[from..to];
    CountingStays(FRESH, heard);
    CjAfter(Feed(FRESH, heard));
    FeedConcat(FRESH, heard, FlatWords(CjWords()));
  }

  /** CJ is heard by any receiver that has synchronised. */
  lemma CjAfter(r: Receiver)
    requires r.kind != NoSync && Counting(r)
    ensures Feed(r, FlatWords(CjWords())).gotCj
  {
    hide Feed, PutBit, Word;
    ZerosGiveCj(r);
    var vs := CjWords();
    var four, five := vs[..4], vs[4..];
    assert vs == four + five;
    FlatWordsConcat(four, five);
    FourWords(four);
    FeedConcat(r, FlatWords(four), FlatWords(five));
    CjStays(Feed(r, FlatWords(four)), FlatWords(five));
  }

  lemma FourWords(vs: seq<nat>)
    requires vs == [Framed8(0), Framed8(0), Framed8(0), Framed8(0)]
    ensures var z := OctetWord(0); FlatWords(vs) == z + z + z + z
  {
    hide Word;
    var z := OctetWord(0);
    var a, b, c := vs[1..], vs[2..], vs[3..];
    assert a[1..] == b && b[1..] == c && c[1..] == [];
    assert FlatWords(c) == z + [];
    assert FlatWords(b) == z + FlatWords(c);
    assert FlatWords(a) == z + FlatWords(b);
    assert FlatWords(vs) == z + FlatWords(a);
    assert z + (z + (z + (z + []))) == z + z + z + z;
  }
}
