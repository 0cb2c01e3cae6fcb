/** Every move brings the aim of the stage nearer, or at least no farther. */
module V8Forward {
  import opened V8Codec
  import opened V8Receiver
  import opened V8Framing
  import opened V8Protocol
  import opened V8System
  import opened V8Units
  import opened V8Liveness
  import opened V8Stages

  // ----- the opening -----

  /** A call of the caller's handler before it sends CM. */
  lemma OpeningCall(e: Endpoint, now: nat)
    requires Early(e.state) && e.ciCount <= 9 && (e.state == SendCI ==> e.tx == [])
    ensures var r := Process(e, now);
      || r.ret != NONE || !Early(r.e.state)
      || (&& r.e.ciCount <= 9
          && (r.e == e || OpeningLeft(r.e, now) < OpeningLeft(e, now))
          && (!OpeningWaits(e, now) && (e.state != CISend || e.tx == []) ==>
                OpeningLeft(r.e, now) < OpeningLeft(e, now)))
  {
    hide PutWords, SelectModulation, Common;
    PutCi(e.mask);
  }

  /** Whatever happens at the caller before it sends CM. */
  lemma OpeningAct(c: Side, a: Side, ev: Event, now: nat)
    requires SendOk(c) && Early(c.e.state) && c.e.ciCount <= 9 && c.ret == NONE
    requires ev.CallHandler? ==> ev.now == now
    ensures var t := Act(c, a, ev).0;
      || t.ret != NONE || !Early(t.e.state)
      || (&& t.e.ciCount <= 9 && OpeningLeft(t.e, now) <= OpeningLeft(c.e, now)
          && (!OpeningWaits(c.e, now)
              && ev == (if c.e.state != CISend || c.e.tx == [] then CallHandler(now) else SendBit) ==>
                OpeningLeft(t.e, now) < OpeningLeft(c.e, now))
          && (OpeningLeft(t.e, now) == OpeningLeft(c.e, now) && !OpeningWaits(c.e, now) ==>
                !OpeningWaits(t.e, now)
                && (t.e.state != CISend || t.e.tx == [] <==> c.e.state != CISend || c.e.tx == [])))
  {
    hide Process, StreamBits, PutBit;
    OpeningCall(c.e, now);
  }

  // ----- sequences -----

  /** A call of the handler of a side that sends sequences. */
  lemma UnitsCall(x: Side, other: Side, l: Side, i: nat, now: nat)
    requires Sends(x, l, i) && x.ret == NONE && SendOk(x) && RightStates(x.e)
    requires (x.e.state == CMSend && !x.e.rx.gotCm) || (x.e.state == JMSend && !x.e.rx.gotCj && now < x.e.connectTimer)
    ensures var t := Handle(x, other, now);
      && t.ret == NONE && Sends(t, l, i) && UnitsLeft(t, i) <= UnitsLeft(x, i)
      && (if x.e.tx == [] then UnitsLeft(x, i) > 0 ==> UnitsLeft(t, i) < UnitsLeft(x, i) else t == x)
  {
    hide PutWords, SelectModulation, Common, CmWords, CjWords, ItemBits, StreamBits, CountCm;
    var t := Handle(x, other, now);
    assert x.items + [] == x.items;
    if x.e.tx == [] {
      PutCm(Offered(x.e));
      assert t.items == x.items + [CmUnit] && |t.e.tx| == 60;
      assert t.items[..i] == x.items[..i] && t.items[i..] == x.items[i..] + [CmUnit];
      assert t.items[i..WholeItems(t, i)] == x.items[i..WholeItems(x, i)];
    }
  }

  /** A bit sent by a side that sends sequences. */
  lemma UnitsSend(x: Side, l: Side, i: nat)
    requires Sends(x, l, i) && Sending(x.e.state)
    ensures var t := Send(x);
      && Sends(t, l, i) && UnitsLeft(t, i) <= UnitsLeft(x, i)
      && (if x.e.tx != [] then UnitsLeft(x, i) > 0 ==> UnitsLeft(t, i) < UnitsLeft(x, i)
          else t.e == x.e && UnitsLeft(t, i) == UnitsLeft(x, i))
  {
    hide Sends, UnitsLeft;
    if x.e.tx == [] {
      UnitsSendIdle(x, l, i);
    } else if |x.items| > i && |x.e.tx| == 1 {
      UnitsSendLast(x, l, i);
    } else {
      UnitsSendBit(x, l, i);
    }
  }

  lemma UnitsSendIdle(x: Side, l: Side, i: nat)
    requires Sends(x, l, i) && x.e.tx == []
    ensures var t := Send(x); t.e == x.e && Sends(t, l, i) && UnitsLeft(t, i) == UnitsLeft(x, i)
  {
    hide StreamBits, CountCm;
    var t := Send(x);
    assert t.items[..i] == x.items[..i] && t.items[i..] == x.items[i..] + [Idle];
    CountOneMore(x.items[i..], Idle);
    assert t.items[i..WholeItems(t, i)] == x.items[i..] + [Idle] && x.items[i..WholeItems(x, i)] == x.items[i..];
  }

  lemma UnitsSendLast(x: Side, l: Side, i: nat)
    requires Sends(x, l, i) && |x.items| > i && |x.e.tx| == 1
    ensures var t := Send(x);
      && Sends(t, l, i) && UnitsLeft(t, i) <= UnitsLeft(x, i)
      && (UnitsLeft(x, i) > 0 ==> UnitsLeft(t, i) < UnitsLeft(x, i))
  {
    hide StreamBits, CountCm, OnlyCm;
    var t, n := Send(x), |x.items| - 1;
    assert x.items[i..] == x.items[i..n] + [CmUnit];
    CountOneMore(x.items[i..n], CmUnit);
    assert t.items[i..WholeItems(t, i)] == x.items[i..] && x.items[i..WholeItems(x, i)] == x.items[i..n];
  }

  lemma UnitsSendBit(x: Side, l: Side, i: nat)
    requires Sends(x, l, i) && x.e.tx != [] && (|x.items| > i ==> |x.e.tx| > 1)
    ensures var t := Send(x);
      && Sends(t, l, i) && UnitsLeft(t, i) <= UnitsLeft(x, i)
      && (UnitsLeft(x, i) > 0 ==> UnitsLeft(t, i) < UnitsLeft(x, i))
  {
    hide StreamBits, CountCm, OnlyCm;
    var t := Send(x);
    assert t.items == x.items && |t.e.tx| == |x.e.tx| - 1;
    assert WholeItems(t, i) == WholeItems(x, i);
  }

  /** Whatever happens at a side that sends sequences, while it goes on sending them. */
  lemma UnitsAct(x: Side, other: Side, l: Side, i: nat, ev: Event, now: nat)
    requires Sends(x, l, i) && x.ret == NONE && SendOk(x) && RightStates(x.e) && (ev.CallHandler? ==> ev.now == now)
    requires (x.e.state == CMSend && !x.e.rx.gotCm) || (x.e.state == JMSend && !x.e.rx.gotCj)
    requires x.e.state == JMSend && ev.CallHandler? ==> now < x.e.connectTimer
    ensures var t := Act(x, other, ev).0;
      && Sends(t, l, i) && UnitsLeft(t, i) <= UnitsLeft(x, i)
      && (ev == (if x.e.tx == [] then CallHandler(now) else SendBit) && UnitsLeft(x, i) > 0 ==>
            UnitsLeft(t, i) < UnitsLeft(x, i))
      && (UnitsLeft(t, i) == UnitsLeft(x, i) && UnitsLeft(x, i) > 0 ==> t.e.tx == x.e.tx)
  {
    hide Handle, Send, Take, UnitsLeft, Sends, StreamBits;
    match ev
    case CallHandler(_) => UnitsCall(x, other, l, i, now);
    case SendBit => UnitsSend(x, l, i);
    case TakeBit =>
      if other.taken < |other.sent| {
        TakeFrame(x, other);
        UnitsSame(x, Take(x, other), l, l, i);
      }
    case HearTone =>
  }

  lemma UnitsSame(x: Side, x': Side, l: Side, l': Side, i: nat)
    requires Sends(x, l, i) && x'.items == x.items && x'.e.tx == x.e.tx
    requires Offered(x'.e) == Offered(x.e) && l'.from == l.from
    ensures Sends(x', l', i) && UnitsLeft(x', i) == UnitsLeft(x, i)
  {
    hide StreamBits, CountCm;
  }

  /** Three whole sequences from item i on, all taken by a side that listens, are decoded. */
  lemma UnitsTaken(x: Side, l: Side, i: nat)
    requires Sends(x, l, i) && UnitsLeft(x, i) == 0 && SendOk(x) && !Flushed(x.e.state)
    requires HearOk(l, x) && Receiving(l.e.state) && x.taken == |x.sent|
    ensures l.e.rx.gotCm
  {
    hide StreamBits, Feed, CountCm, OnlyCm, ItemBits, UnitsLeft;
    var items, mask := x.items, Offered(x.e);
    var e := WholeItems(x, i);
    var bits := StreamBits(items, mask);
    assert x.sent + x.e.tx == bits;
    UnitsLeftNothing(x, i);
    WholeSent(x, l, i);
    OnlyPart(items, i, e);
    UnitsHeard(items, mask, l.from, i, e, |x.sent|);
    assert bits[l.from..|x.sent|] == x.sent[l.from..|x.sent|];
  }

  /** The items counted have been sent whole. */
  lemma WholeSent(x: Side, l: Side, i: nat)
    requires Sends(x, l, i) && x.sent + x.e.tx == StreamBits(x.items, Offered(x.e)) && |x.items| > i
    ensures |StreamBits(x.items[..WholeItems(x, i)], Offered(x.e))| <= |x.sent|
  {
    hide StreamBits, ItemBits, OnlyCm;
    var items, mask, e := x.items, Offered(x.e), WholeItems(x, i);
    assert |x.sent| + |x.e.tx| == |StreamBits(items, mask)|;
    if e < |items| {
      assert items == items[..e] + [CmUnit];
      OneItem(items[..e], CmUnit, mask);
      PutCm(mask);
      assert |ItemBits(CmUnit, mask)| == 60;
    } else {
      assert items[..e] == items;
    }
  }

  lemma UnitsLeftNothing(x: Side, i: nat)
    requires i <= |x.items| && UnitsLeft(x, i) == 0
    requires |x.items| > i && x.e.tx != [] ==> |x.e.tx| <= 60
    ensures |x.items| > i && CountCm(x.items[i..WholeItems(x, i)]) >= 3
  {
    assert CountCm([]) == 0 && x.items[i..i] == [];
  }

  lemma OnlyPart(items: seq<Item>, i: nat, e: nat)
    requires i <= e <= |items| && OnlyCm(items[i..])
    ensures OnlyCm(items[i..e])
  {
    assert forall k :: 0 <= k < e - i ==> items[i..e][k] == items[i..][k];
  }

  // ----- where the sides are while an aim is not reached -----

  /** Both sides are still in the call. */
  predicate Going(s: System) {
    !GaveUp(s.caller) && !GaveUp(s.answerer)
  }

  /** The answerer takes nothing for a CJ before the caller flushes its queue. */
  lemma NoCjBefore(s: System)
    requires Ok(s) && !Flushed(s.caller.e.state)
    ensures !s.answerer.e.rx.gotCj
  {
    hide Feed, StreamBits, Common, ChoiceOk, Truthful;
    NoCjHeard(s.answerer, s.caller);
  }

  lemma NoCjHeard(l: Side, x: Side)
    requires HearOk(l, x) && SendOk(x) && !Flushed(x.e.state)
    ensures !l.e.rx.gotCj
  {
    hide Feed, StreamBits, Common;
    var bits, to := StreamBits(x.items, Offered(x.e)), l.from + |l.heard|;
    Stretch(x.sent, x.e.tx, bits, l.from, to);
    OnlyTruth(x.items, Offered(x.e), l.from, to);
  }

  lemma WhileCm(s: System, i: nat)
    requires Inv(s) && Going(s) && Ready(CmDecoded(i), s) && !Done(CmDecoded(i), s)
    ensures s.caller.e.state == CMSend && s.caller.ret == NONE && !s.caller.e.rx.gotCm
    ensures s.answerer.e.state == CMWait && s.answerer.ret == NONE
  {
    hide Sends, SendOk, HearOk, FlushOk;
  }

  lemma WhileJm(s: System, i: nat)
    requires Inv(s) && Going(s) && Ready(JmDecoded(i), s) && !Done(JmDecoded(i), s)
    ensures s.caller.e.state == CMSend && s.caller.ret == NONE
    ensures s.answerer.e.state == JMSend && s.answerer.ret == NONE && !s.answerer.e.rx.gotCj
  {
    hide Sends, SendOk, HearOk, FlushOk;
    NoCjBefore(s);
  }

  lemma FromStays(s: Side, other: Side, ev: Event)
    requires s.e.state != Wait && s.e.state != GotAnsam
    ensures Act(s, other, ev).0.from == s.from
  {
    hide Process, Feed, PutBit;
  }

  // ----- one move -----

  lemma ForwardCallerOpen(s: System, m: Move, now: nat)
    requires Inv(s) && Going(s) && Ready(CallerOpen, s) && !Done(CallerOpen, s)
    requires m.ev.CallHandler? ==> m.ev.now == now
    ensures Forward(CallerOpen, s, m, now)
  {
    hide Act, SendOk, HearOk, ChoiceOk, FlushOk, Truthful, OpeningLeft;
    if m.byCaller {
      OpeningAct(s.caller, s.answerer, m.ev, now);
    } else {
      OtherSide(s.answerer, s.caller, m.ev);
    }
  }

  lemma ForwardCm(i: nat, s: System, m: Move, now: nat)
    requires Inv(s) && Going(s) && Ready(CmDecoded(i), s) && !Done(CmDecoded(i), s)
    requires m.ev.CallHandler? ==> m.ev.now == now
    ensures Forward(CmDecoded(i), s, m, now)
  {
    hide Act, SendOk, HearOk, ChoiceOk, FlushOk, Truthful, UnitsLeft, Sends;
    var c, a, t := s.caller, s.answerer, Next(s, m);
    WhileCm(s, i);
    NextKept(s, m);
    if m.byCaller {
      UnitsAct(c, a, a, i, m.ev, now);
      OtherSide(c, a, m.ev);
      UnitsSame(t.caller, t.caller, a, t.answerer, i);
    } else {
      OtherSide(a, c, m.ev);
      FromStays(a, c, m.ev);
      UnitsSame(c, t.caller, a, t.answerer, i);
    }
  }

  lemma ForwardJm(i: nat, s: System, m: Move, now: nat)
    requires Inv(s) && Going(s) && Ready(JmDecoded(i), s) && !Done(JmDecoded(i), s)
    requires m.ev.CallHandler? ==> m.ev.now == now
    ensures Forward(JmDecoded(i), s, m, now)
  {
    hide Act, SendOk, HearOk, ChoiceOk, FlushOk, Truthful, UnitsLeft, Sends;
    var c, a, t := s.caller, s.answerer, Next(s, m);
    WhileJm(s, i);
    NextKept(s, m);
    if m.byCaller {
      OtherSide(c, a, m.ev);
      FromStays(c, a, m.ev);
      UnitsSame(a, t.answerer, c, t.caller, i);
    } else if m.ev.CallHandler? && now >= a.e.connectTimer {
      TooLate(a, c, now);
    } else {
      UnitsAct(a, c, c, i, m.ev, now);
      OtherSide(a, c, m.ev);
      UnitsSame(t.answerer, t.answerer, c, t.caller, i);
    }
  }

  lemma TooLate(a: Side, other: Side, now: nat)
    requires (a.e.state == JMSend || a.e.state == CMWait) && a.ret == NONE && now >= a.e.connectTimer
    ensures GaveUp(Act(a, other, CallHandler(now)).0)
  {
  }

  /** The answerer before its first timer runs out. */
  lemma WaitAct(a: Side, other: Side, ev: Event, now: nat)
    requires a.e.state == Wait && a.ret == NONE && (ev.CallHandler? ==> ev.now == now)
    ensures var t := Act(a, other, ev).0;
      if ev.CallHandler? && now >= a.e.connectTimer then t.e.state != Wait else t.e == a.e
  {
    hide PutBit;
  }

  lemma ForwardAnswererOpen(s: System, m: Move, now: nat)
    requires Inv(s) && Going(s) && !Done(AnswererOpen, s) && (m.ev.CallHandler? ==> m.ev.now == now)
    ensures Forward(AnswererOpen, s, m, now)
  {
    hide Act, SendOk, HearOk, ChoiceOk, FlushOk, Truthful;
    if m.byCaller {
      OtherSide(s.caller, s.answerer, m.ev);
    } else {
      WaitAct(s.answerer, s.caller, m.ev, now);
    }
  }

  /** A call of the handler of a side that has what it waits for. */
  lemma DecideAct(x: Side, other: Side, now: nat)
    requires x.ret == NONE && if x.e.state == JMSend then x.e.rx.gotCj else x.e.rx.gotCm
    requires x.e.state == CMWait || x.e.state == CMSend || x.e.state == JMSend
    ensures var t := Act(x, other, CallHandler(now)).0;
      GaveUp(t) || t.e.state == if x.e.state == CMWait then JMSend else if x.e.state == CMSend then CJSend else SigA
  {
    hide PutWords, SelectModulation, Common, CmWords, CjWords;
  }

  /** The aims that one call of a handler reaches. */
  lemma ForwardChoice(g: Goal, s: System, m: Move, now: nat)
    requires g == AnswererChooses || g == CallerChooses || g == AnswererEnds
    requires Inv(s) && Going(s) && Ready(g, s) && !Done(g, s) && (m.ev.CallHandler? ==> m.ev.now == now)
    ensures Forward(g, s, m, now)
  {
    hide Next, SendOk, HearOk, FlushOk;
    NextKept(s, m);
    if m.byCaller == ByCaller(g) && m.ev.CallHandler? { ChoiceMade(g, s, now); }
  }

  lemma ChoiceMade(g: Goal, s: System, now: nat)
    requires g == AnswererChooses || g == CallerChooses || g == AnswererEnds
    requires Inv(s) && Going(s) && Ready(g, s) && !Done(g, s)
    ensures var t := Next(s, Move(ByCaller(g), CallHandler(now))); Done(g, t) || GaveUp(t.caller) || GaveUp(t.answerer)
  {
    hide Act, SendOk, HearOk, FlushOk;
    if g == CallerChooses {
      DecideAct(s.caller, s.answerer, now);
    } else {
      DecideAct(s.answerer, s.caller, now);
    }
  }

  /** The caller after its flush. */
  lemma FlushAct(c: Side, other: Side, ev: Event, now: nat)
    requires c.e.state == CJSend && c.ret == NONE && (ev.CallHandler? ==> ev.now == now)
    ensures var t := Act(c, other, ev).0;
      && (if ev.CallHandler? && c.e.tx == [] then t.e.state == SigC && t.e.tx == [] else t.e.state == CJSend)
      && |t.e.tx| == if ev == SendBit && c.e.tx != [] then |c.e.tx| - 1 else |c.e.tx|
  {
    hide PutBit;
  }

  lemma ForwardCj(s: System, m: Move, now: nat)
    requires Inv(s) && Going(s) && Ready(CjFound, s) && !Done(CjFound, s) && (m.ev.CallHandler? ==> m.ev.now == now)
    ensures Forward(CjFound, s, m, now)
  {
    hide Act, SendOk, HearOk, ChoiceOk, FlushOk, Truthful;
    NextKept(s, m);
    if !m.byCaller {
      OtherSide(s.answerer, s.caller, m.ev);
    } else if s.caller.e.state == CJSend {
      FlushAct(s.caller, s.answerer, m.ev, now);
    } else {
      EndAct(s.caller, s.answerer, m.ev, now);
    }
  }

  lemma ForwardCallerEnds(s: System, m: Move, now: nat)
    requires Inv(s) && Going(s) && Ready(CallerEnds, s) && !Done(CallerEnds, s)
    requires m.ev.CallHandler? ==> m.ev.now == now
    ensures Forward(CallerEnds, s, m, now)
  {
    hide Act, SendOk, HearOk, ChoiceOk, FlushOk, Truthful;
    NextKept(s, m);
    if m.byCaller {
      FlushAct(s.caller, s.answerer, m.ev, now);
    } else {
      OtherSide(s.answerer, s.caller, m.ev);
    }
  }

  /** A side in its last state. */
  lemma EndAct(x: Side, other: Side, ev: Event, now: nat)
    requires (x.e.state == SigA || x.e.state == SigC) && (ev.CallHandler? ==> ev.now == now)
    ensures var t := Act(x, other, ev).0; var timer := if x.e.state == SigA then x.e.connectTimer else x.e.startTimer;
      && t.e == x.e
      && t.ret == if x.ret == NONE && ev.CallHandler? && now >= timer then x.e.selected else x.ret
  {
    hide PutBit;
  }

  lemma ForwardReturn(g: Goal, s: System, m: Move, now: nat)
    requires g == AnswererReturns || g == CallerReturns
    requires Inv(s) && Going(s) && Ready(g, s) && !Done(g, s) && (m.ev.CallHandler? ==> m.ev.now == now)
    ensures Forward(g, s, m, now)
  {
    hide Act, SendOk, HearOk, FlushOk, Truthful, SelectModulation, Common;
    if m.byCaller {
      OtherSide(s.caller, s.answerer, m.ev);
      if g == CallerReturns { EndAct(s.caller, s.answerer, m.ev, now); }
    } else {
      OtherSide(s.answerer, s.caller, m.ev);
      if g == AnswererReturns { EndAct(s.answerer, s.caller, m.ev, now); }
    }
  }

  /** Whatever the aim, no move puts it off, and the one that helps brings it nearer. */
  lemma MovesForward(g: Goal, s: System, m: Move, now: nat)
    requires Inv(s) && Going(s) && Ready(g, s) && !Done(g, s) && (m.ev.CallHandler? ==> m.ev.now == now)
    ensures Forward(g, s, m, now)
  {
    hide Forward, Ready, Done, Inv, Going;
    match g
    case CallerOpen => ForwardCallerOpen(s, m, now);
    case AnswererOpen => ForwardAnswererOpen(s, m, now);
    case CmDecoded(i) => ForwardCm(i, s, m, now);
    case AnswererChooses => ForwardChoice(g, s, m, now);
    case JmDecoded(i) => ForwardJm(i, s, m, now);
    case CallerChooses => ForwardChoice(g, s, m, now);
    case CjFound => ForwardCj(s, m, now);
    case AnswererEnds => ForwardChoice(g, s, m, now);
    case CallerEnds => ForwardCallerEnds(s, m, now);
    case AnswererReturns => ForwardReturn(g, s, m, now);
    case CallerReturns => ForwardReturn(g, s, m, now);
  }
}
