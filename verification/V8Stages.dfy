/** The stages of a V.8 call, and how much is left to do in each. */
module V8Stages {
  import opened V8Codec
  import opened V8Receiver
  import opened V8Framing
  import opened V8Protocol
  import opened V8System
  import opened V8Units
  import opened V8Liveness

  /** The aims of a call, one after another; where sequences count, those from item i on. */
  datatype Goal = CallerOpen | AnswererOpen | CmDecoded(i: nat) | AnswererChooses | JmDecoded(i: nat)
                | CallerChooses | CjFound | AnswererEnds | CallerEnds | AnswererReturns | CallerReturns

  /** Whose events bring the aim nearer. */
  predicate ByCaller(g: Goal) {
    g in {CallerOpen, CallerChooses, CjFound, CallerEnds, CallerReturns} || g.CmDecoded?
  }

  /** States before the exchange of CM and JM. */
  predicate Early(st: State) {
    st == Wait1Second || st == SendCI || st == CISend || st == CIOff || st == GotAnsam
  }

  /** Reached, for good. */
  predicate Done(g: Goal, s: System) {
    var c, a := s.caller, s.answerer;
    match g
    case CallerOpen => !Early(c.e.state)
    case AnswererOpen => a.e.state != Wait
    case CmDecoded(_) => a.e.rx.gotCm && a.e.state != Wait
    case AnswererChooses => Chosen(a.e.state)
    case JmDecoded(_) => c.e.rx.gotCm && !Early(c.e.state)
    case CallerChooses => Flushed(c.e.state)
    case CjFound => a.e.rx.gotCj && Chosen(a.e.state)
    case AnswererEnds => a.e.state == SigA
    case CallerEnds => c.e.state == SigC
    case AnswererReturns => a.e.state == SigA && a.ret != NONE
    case CallerReturns => c.e.state == SigC && c.ret != NONE
  }

  /** A side that sends sequences: from item i on, and to a receiver that began before it. */
  predicate Sends(x: Side, l: Side, i: nat) {
    && i <= |x.items| && OnlyCm(x.items[i..]) && l.from <= |StreamBits(x.items[..i], Offered(x.e))|
    && (|x.items| > i && x.e.tx != [] ==> x.items[|x.items| - 1] == CmUnit && |x.e.tx| <= 60)
  }

  /** What holds from the time the aims before it have been reached. */
  predicate Ready(g: Goal, s: System) {
    var c, a := s.caller, s.answerer;
    match g
    case CallerOpen => c.e.ciCount <= 9
    case AnswererOpen => true
    case CmDecoded(i) => !Early(c.e.state) && a.e.state != Wait && Sends(c, a, i)
    case AnswererChooses => a.e.rx.gotCm && a.e.state != Wait
    case JmDecoded(i) => !Early(c.e.state) && Chosen(a.e.state) && Sends(a, c, i)
    case CallerChooses => c.e.rx.gotCm && !Early(c.e.state)
    case CjFound => Flushed(c.e.state)
    case AnswererEnds => a.e.rx.gotCj && Chosen(a.e.state)
    case CallerEnds => Flushed(c.e.state)
    case AnswererReturns => a.e.state == SigA
    case CallerReturns => c.e.state == SigC
  }

  // ----- what is left to do -----

  /** Time until a timer runs out. */
  function Until(timer: nat, now: nat): nat {
    if timer > now then timer - now else 0
  }

  const CYCLE: nat := 20000

  function Cycles(e: Endpoint): nat {
    if e.ciCount < 10 then 10 - e.ciCount else 0
  }

  /** Left to do until the caller sends CM. */
  function OpeningLeft(e: Endpoint, now: nat): nat {
    match e.state
    case Wait1Second => 10 * CYCLE + 10600 + Until(e.startTimer, now)
    case SendCI => Cycles(e) * CYCLE + 10530
    case CISend => Cycles(e) * CYCLE + 10405 + |e.tx|
    case CIOff => Cycles(e) * CYCLE + 6402 + Until(e.ciTimer, now)
    case GotAnsam => 1 + Until(e.ciTimer, now)
    case _ => 0
  }

  /** How many of a side's items, from i on, have been sent whole. */
  function WholeItems(x: Side, i: nat): nat {
    if x.e.tx != [] && |x.items| > i then |x.items| - 1 else |x.items|
  }

  /** Left to do until three sequences from item i on have been sent. */
  function UnitsLeft(x: Side, i: nat): int
    requires i <= |x.items|
  {
    var n := CountCm(x.items[i..WholeItems(x, i)]);
    if n >= 3 then 0 else
      61 * (3 - n) + if x.e.tx == [] then 0 else if |x.items| > i then |x.e.tx| - 61 else |x.e.tx|
  }

  function Left(g: Goal, s: System, now: nat): int
    requires Ready(g, s)
  {
    var c, a := s.caller, s.answerer;
    match g
    case CallerOpen => OpeningLeft(c.e, now)
    case AnswererOpen => 1 + Until(a.e.connectTimer, now)
    case CmDecoded(i) => UnitsLeft(c, i)
    case AnswererChooses => 1
    case JmDecoded(i) => UnitsLeft(a, i)
    case CallerChooses => 1
    case CjFound => |c.e.tx|
    case AnswererEnds => 1
    case CallerEnds => 1 + |c.e.tx|
    case AnswererReturns => 1 + Until(a.e.connectTimer, now)
    case CallerReturns => 1 + Until(c.e.startTimer, now)
  }

  /** Whether a call of the handler is what brings the aim nearer; else it is a bit sent. */
  predicate CallHelps(g: Goal, s: System) {
    var c, a := s.caller, s.answerer;
    match g
    case CallerOpen => c.e.state != CISend || c.e.tx == []
    case CmDecoded(_) => c.e.tx == []
    case JmDecoded(_) => a.e.tx == []
    case CjFound => false
    case CallerEnds => c.e.tx == []
    case _ => true
  }

  predicate OpeningWaits(e: Endpoint, now: nat) {
    (e.state == Wait1Second && now < e.startTimer) || (e.state == GotAnsam && now < e.ciTimer)
    || (e.state == CIOff && !e.ansam && now < e.ciTimer)
  }

  /** Nothing helps before a timer runs out. */
  predicate OnTimer(g: Goal, s: System, now: nat) {
    var c, a := s.caller, s.answerer;
    match g
    case CallerOpen => OpeningWaits(c.e, now)
    case AnswererOpen => now < a.e.connectTimer
    case AnswererReturns => now < a.e.connectTimer
    case CallerReturns => now < c.e.startTimer
    case _ => false
  }

  predicate Helps(g: Goal, s: System, m: Move, now: nat) {
    && m.byCaller == ByCaller(g) && !OnTimer(g, s, now)
    && if CallHelps(g, s) then m.ev == CallHandler(now) else m.ev == SendBit
  }

  /** After a move: reached, or given up, or no more left to do than before, and less if the move helped. */
  predicate Forward(g: Goal, s: System, m: Move, now: nat)
    requires Ready(g, s)
  {
    var t := Next(s, m);
    || Done(g, t) || GaveUp(t.caller) || GaveUp(t.answerer)
    || (&& Ready(g, t) && Left(g, t, now) <= Left(g, s, now)
        && (Helps(g, s, m, now) && Left(g, s, now) > 0 ==> Left(g, t, now) < Left(g, s, now))
        && (Left(g, t, now) == Left(g, s, now) > 0 && !OnTimer(g, s, now) ==>
              !OnTimer(g, t, now) && CallHelps(g, t) == CallHelps(g, s)))
  }

  /** Time brings an aim nearer that waits for a timer, and none farther. */
  lemma Later(g: Goal, s: System, now: nat, then': nat)
    requires Ready(g, s) && now <= then'
    ensures Left(g, s, then') <= Left(g, s, now)
    ensures now < then' && OnTimer(g, s, then') ==> Left(g, s, then') < Left(g, s, now)
  {
    hide UnitsLeft, Sends;
  }

  // ----- reached for good -----

  /** What a side has reached it keeps. */
  predicate Kept(s: Side, t: Side) {
    && (!Early(s.e.state) ==> !Early(t.e.state)) && (s.e.state != Wait ==> t.e.state != Wait)
    && (Chosen(s.e.state) ==> Chosen(t.e.state)) && (Flushed(s.e.state) ==> Flushed(t.e.state))
    && (s.e.state == SigA ==> t.e.state == SigA) && (s.e.state == SigC ==> t.e.state == SigC)
    && (s.ret != NONE ==> t.ret == s.ret)
    && (s.e.rx.gotCm && s.e.state != Wait && s.e.state != GotAnsam ==> t.e.rx.gotCm)
    && (s.e.rx.gotCj && s.e.state != Wait && s.e.state != GotAnsam ==> t.e.rx.gotCj)
  }

  lemma CallKept(s: Side, other: Side, now: nat)
    requires s.ret == NONE
    ensures Kept(s, Handle(s, other, now))
  {
    hide PutWords, SelectModulation, Common, CmWords, CjWords;
  }

  lemma TakeKept(s: Side, other: Side)
    requires other.taken < |other.sent|
    ensures Kept(s, Take(s, other))
  {
    hide PutBit;
    var b := other.sent[other.taken];
    FeedOne(s.e.rx, b);
    if s.e.rx.gotCm { DecodedStays(s.e.rx, [b]); }
    if s.e.rx.gotCj { CjStays(s.e.rx, [b]); }
  }

  lemma ActKept(s: Side, other: Side, ev: Event)
    ensures Kept(s, Act(s, other, ev).0)
  {
    hide Handle, Send, Take;
    if s.ret == NONE {
      match ev
      case CallHandler(now) => CallKept(s, other, now);
      case SendBit => SendFrame(s);
      case TakeBit => if other.taken < |other.sent| { TakeKept(s, other); }
      case HearTone =>
    }
  }

  lemma NextKept(s: System, m: Move)
    ensures Kept(s.caller, Next(s, m).caller) && Kept(s.answerer, Next(s, m).answerer)
  {
    hide Act;
    if m.byCaller {
      ActKept(s.caller, s.answerer, m.ev);
      OtherSide(s.caller, s.answerer, m.ev);
    } else {
      ActKept(s.answerer, s.caller, m.ev);
      OtherSide(s.answerer, s.caller, m.ev);
    }
  }

  lemma StaysDone(g: Goal, s: System, m: Move)
    requires Ok(s) && Done(g, s)
    ensures Done(g, Next(s, m))
  {
    hide Next, SendOk, HearOk, ChoiceOk, Truthful;
    NextKept(s, m);
  }
}
