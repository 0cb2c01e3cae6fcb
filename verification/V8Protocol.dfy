/** The V.8 endpoint: one call of the protocol handler per block of samples. */
module V8Protocol {
  import opened Bits
  import opened LmFifo
  import opened V8Codec
  import opened V8Receiver
  import opened V8Words

  const TXSIZE: nat := 256
  const TE: nat := 800
  const MAX_CI_SEQ: nat := 10

  datatype State = Wait1Second | SendCI | CISend | CIOff | GotAnsam | CMSend | CJSend | SigC
                 | Wait | CMWait | JMSend | SigA

  /** Everything the handler reads or writes, apart from tone generation. */
  datatype Endpoint = Endpoint(
    calling: bool, state: State, startTimer: nat, ciTimer: nat, connectTimer: nat, ciCount: nat,
    tx: seq<byte>, rx: Receiver, ansam: bool, mask: Modes, common: Modes, selected: Modes)

  /** Delay in milliseconds, at 8000 samples a second. */
  function Timer(now: nat, delay: nat): nat {
    now + delay * 8000 / 1000
  }

  function Init(calling: bool, mask: Modes, now: nat): Endpoint {
    Endpoint(calling, if calling then Wait1Second else Wait, if calling then Timer(now, 1000) else 0, 0,
             if calling then 0 else Timer(now, 200), 0, [], FRESH, false, mask, NONE, NONE)
  }

  /** Put 10-bit words on the transmit queue. */
  function PutWords(tx: seq<byte>, vs: seq<nat>): (r: seq<byte>)
    decreases vs
  {
    if vs == [] then tx else PutWords(Room(tx + Word(vs[0]), TXSIZE), vs[1..])
  }

  function Framed8(d: byte): nat {
    2 * d + 1
  }

  function CmWords(mask: Modes): (vs: seq<nat>)
    ensures |vs| == 6
  {
    var o := Octets(mask);
    [ONES, CM_SYNC, Framed8(o[0]), Framed8(o[1]), Framed8(o[2]), Framed8(o[3])]
  }

  const CI_WORDS: seq<nat> := [ONES, CI_SYNC, Framed8(CALL_FUNC_DATA)]

  function CjWords(): (vs: seq<nat>)
    ensures |vs| == 9
  {
    seq(9, _ => Framed8(0))
  }

  datatype Result = Result(e: Endpoint, ret: Modes)

  /** States in which bits are sent. */
  predicate Sending(s: State) {
    s == CISend || s == CMSend || s == JMSend || s == CJSend
  }

  /** States in which bits are received. */
  predicate Receiving(s: State) {
    s == CMWait || s == CMSend || s == JMSend
  }

  /** States in which ANSam is listened for. */
  predicate Listening(s: State) {
    s == SendCI || s == CIOff || s == CISend
  }

  /** The modulation agreed on. */
  function Select(e: Endpoint): Endpoint {
    var common := Common(e.mask, e.rx.decoded);
    e.(common := common, selected := SelectModulation(common))
  }

  /** The state machine, at time now. */
  function Process(e: Endpoint, now: nat): Result {
    match e.state
    case Wait1Second =>
      if now >= e.startTimer then Result(e.(state := SendCI, ciCount := 0, ansam := false), NONE) else Result(e, NONE)
    case SendCI =>
      Result(e.(tx := PutWords(e.tx, CI_WORDS + CI_WORDS + CI_WORDS + CI_WORDS), state := CISend), NONE)
    case CISend =>
      if |e.tx| == 0 then Result(e.(state := CIOff, ciTimer := Timer(now, 500)), NONE) else Result(e, NONE)
    case CIOff =>
      if e.ansam then Result(e.(ciTimer := Timer(now, TE), state := GotAnsam), NONE)
      else if now >= e.ciTimer then
        if e.ciCount + 1 == MAX_CI_SEQ then Result(e.(ciCount := e.ciCount + 1), HANGUP)
        else Result(e.(ciCount := e.ciCount + 1, state := SendCI), NONE)
      else Result(e, NONE)
    case GotAnsam =>
      if now >= e.ciTimer then Result(e.(rx := FRESH, state := CMSend), NONE) else Result(e, NONE)
    case CMSend =>
      if e.rx.gotCm then Result(Select(e).(tx := PutWords([], CjWords()), state := CJSend), NONE)
      else if |e.tx| == 0 then Result(e.(tx := PutWords(e.tx, CmWords(e.mask))), NONE)
      else Result(e, NONE)
    case CJSend =>
      if |e.tx| == 0 then Result(e.(startTimer := Timer(now, 75), state := SigC), NONE) else Result(e, NONE)
    case SigC =>
      Result(e, if now >= e.startTimer then e.selected else NONE)
    case Wait =>
      if now >= e.connectTimer then Result(e.(rx := FRESH, connectTimer := Timer(now, 5000), state := CMWait), NONE)
      else Result(e, NONE)
    case CMWait =>
      if now >= e.connectTimer then Result(e, HANGUP)
      else if e.rx.gotCm then Result(Select(e).(connectTimer := Timer(now, 5000), state := JMSend), NONE)
      else Result(e, NONE)
    case JMSend =>
      if now >= e.connectTimer then Result(e, HANGUP)
      else if e.rx.gotCj then Result(e.(connectTimer := Timer(now, 75), state := SigA), NONE)
      else if |e.tx| == 0 then Result(e.(tx := PutWords(e.tx, CmWords(e.common))), NONE)
      else Result(e, NONE)
    case SigA =>
      Result(e, if now >= e.connectTimer then e.selected else NONE)
  }

  /** The next bit to modulate: from the queue, or a one. */
  function NextBit(e: Endpoint): bit {
    if e.tx == [] then 1 else if e.tx[0] == 0 then 0 else 1
  }

  function Emit(e: Endpoint): Endpoint {
    e.(tx := if e.tx == [] then [] else e.tx[1..])
  }

  function Hear(e: Endpoint, b: bit): Endpoint {
    if Receiving(e.state) then e.(rx := PutBit(e.rx, b)) else e
  }

  // ----- the answerer's time limit -----

  /** When the answerer leaves its present state at the latest, for calls at most `block` samples apart from t0 on. */
  predicate InTime(e: Endpoint, t0: nat, block: nat) {
    match e.state
    case Wait => e.connectTimer <= t0 + 1600
    case CMWait => e.connectTimer <= t0 + 1600 + block + 40000
    case JMSend => e.connectTimer <= t0 + 1600 + block + 40000 + block + 40000 && e.selected != NONE
    case SigA => e.connectTimer <= t0 + 1600 + block + 40000 + block + 40000 + block + 600 && e.selected != NONE
    case _ => false
  }

  /** A call that does not end the negotiation keeps the answerer in time. */
  lemma StaysInTime(e: Endpoint, t0: nat, block: nat, last: nat, now: nat)
    requires InTime(e, t0, block) && last <= now <= last + block
    requires Process(e, now).ret == NONE
    requires last < e.connectTimer
    ensures var f := Process(e, now).e; InTime(f, t0, block) && now < f.connectTimer
  {
    hide SelectModulation, Octets, PutWords;
  }

  /** The answerer's fate: a call at each of these times, with what was received before it, while no call returns. */
  predicate AnswererRun(es: seq<Endpoint>, times: seq<nat>, t0: nat, block: nat) {
    && |es| == |times| && |times| >= 1 && t0 <= times[0] <= t0 + block
    && es[0].state == Wait && es[0].connectTimer == Timer(t0, 200)
    && (forall i :: 0 <= i < |times| - 1 ==> times[i] <= times[i + 1] <= times[i] + block)
    && (forall i :: 0 <= i < |times| - 1 ==>
          Process(es[i], times[i]).ret == NONE && Between(Process(es[i], times[i]).e, es[i + 1]))
  }

  /** Only bits go in and out between calls. */
  predicate Between(e: Endpoint, f: Endpoint) {
    f == e.(tx := f.tx, rx := f.rx)
  }

  lemma {:induction false} RunInTime(es: seq<Endpoint>, times: seq<nat>, t0: nat, block: nat, i: nat)
    requires AnswererRun(es, times, t0, block) && i < |es|
    ensures InTime(es[i], t0, block)
    ensures i > 0 ==> times[i - 1] < es[i].connectTimer
  {
    hide Process;
    if i == 0 {
      assert Timer(t0, 200) == t0 + 1600;
    } else {
      RunInTime(es, times, t0, block, i - 1);
      assert Between(Process(es[i - 1], times[i - 1]).e, es[i]);
      StaysInTime(es[i - 1], t0, block, if i == 1 then t0 else times[i - 2], times[i - 1]);
    }
  }

  /** Called at least every `block` samples, the answerer returns within 82200 samples and four blocks. */
  lemma AnswererReturns(es: seq<Endpoint>, times: seq<nat>, t0: nat, block: nat)
    requires AnswererRun(es, times, t0, block)
    ensures var n := |es| - 1; times[n] >= t0 + 82200 + 3 * block ==> Process(es[n], times[n]).ret != NONE
    ensures times[|es| - 1] < t0 + 82200 + 4 * block
  {
    hide SelectModulation, Octets, PutWords;
    var n := |es| - 1;
    RunInTime(es, times, t0, block, n);
  }
}
