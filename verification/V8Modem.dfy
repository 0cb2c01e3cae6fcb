/** The V.8 modem state, updated in place by received bits, sent bits and handler calls. */
module V8Modem {
  import opened Bits
  import opened LmFifo
  import opened V8Codec
  import opened V8Receiver
  import opened V8Words
  import opened V8Protocol

  class V8State {
    const calling: bool
    const mask: Modes
    const txFifo: SmFifo
    var state: State
    var startTimer: nat
    var ciTimer: nat
    var connectTimer: nat
    var ciCount: nat
    var ansamDetected: bool
    var bitSync: bv20
    var bitBuf: nat
    var bitCnt: nat
    var dataState: Kind
    var rxData: seq<byte>
    var cmData: seq<byte>
    var gotCm: bool
    var decodedModulations: Modes
    var gotCj: bool
    var zeroCount: nat
    var selectedMask: Modes
    var selectedModulation: Modes

    ghost predicate Valid()
      reads this, txFifo, txFifo.data
    {
      txFifo.Valid() && txFifo.maxSize == TXSIZE && (this as object) != txFifo && (this as object) != txFifo.data
    }

    /** The receiver's part of the state. */
    function Rx(): Receiver
      reads this
    {
      Receiver(bitSync, dataState, bitBuf, bitCnt, rxData, cmData, gotCm, decodedModulations, gotCj, zeroCount)
    }

    /** The state as a value. */
    ghost function View(): Endpoint
      requires Valid()
      reads this, txFifo, txFifo.data
    {
      Endpoint(calling, state, startTimer, ciTimer, connectTimer, ciCount, txFifo.Contents(), Rx(), ansamDetected,
               mask, selectedMask, selectedModulation)
    }

    constructor (calling: bool, mask: Modes, now: nat)
      ensures Valid() && fresh(txFifo) && fresh(txFifo.data) && View() == Init(calling, mask, now)
    {
      this.calling, this.mask := calling, mask;
      txFifo := new SmFifo(TXSIZE);
      ansamDetected, ciCount, ciTimer := false, 0, 0;
      startTimer, connectTimer := 0, 0;
      selectedMask, selectedModulation := NONE, NONE;
      bitSync, dataState, bitBuf, bitCnt, rxData := 0, NoSync, 0, 0, [];
      cmData, gotCm, decodedModulations, gotCj, zeroCount := [], false, NONE, false, 0;
      if calling {
        state := Wait1Second;
        startTimer := Timer(now, 1000);
      } else {
        connectTimer := Timer(now, 200);
        state := Wait;
      }
    }

    /** Prepare the receiver. */
    method DecodeInit()
      modifies this`bitSync, this`bitBuf, this`bitCnt, this`dataState, this`rxData, this`cmData, this`gotCm,
               this`decodedModulations, this`gotCj, this`zeroCount
      ensures Rx() == FRESH
    {
      bitSync, dataState, bitBuf, bitCnt, rxData := 0, NoSync, 0, 0, [];
      cmData, gotCm, decodedModulations, gotCj, zeroCount := [], false, NONE, false, 0;
    }

    /** Decode a CM or JM sequence. */
    method CmDecode()
      modifies this`gotCm, this`decodedModulations, this`cmData
      ensures Rx() == V8Receiver.CmDecode(old(Rx()))
    {
      if gotCm { return; }
      if |cmData| > 0 && cmData == rxData {
        gotCm := true;
        decodedModulations := Decode(cmData);
        return;
      }
      cmData := rxData;
    }

    /** Synchronisation found: the sequence before is over. */
    method DataInit(kind: Kind)
      modifies this`bitBuf, this`bitCnt, this`dataState, this`rxData, this`cmData, this`gotCm, this`decodedModulations
      ensures Rx() == Start(old(Rx()), kind)
    {
      hide V8Receiver.CmDecode;
      if dataState == CM { CmDecode(); }
      dataState, bitBuf, bitCnt, rxData := kind, 0, 0, [];
    }

    /** One bit into the octet window. */
    method OctetBit(bit: bit)
      modifies this`bitBuf, this`bitCnt, this`rxData, this`gotCj, this`zeroCount
      ensures Rx() == Octet(old(Rx()), bit)
    {
      bitBuf := (2 * bitBuf + bit) % 1024;
      bitCnt := bitCnt + 1;
      if bitBuf < 512 && bitBuf % 2 == 1 && bitCnt >= 10 {
        var data := (bitBuf / 2) % 256;
        if data == 0 {
          zeroCount := zeroCount + 1;
          if zeroCount == 3 { gotCj := true; }
        } else {
          zeroCount := 0;
        }
        if |rxData| < RXMAX { rxData := rxData + [data]; }
        bitCnt := 0;
      }
    }

    /** One received bit. */
    method PutBit(bit: bit)
      modifies this`bitSync, this`bitBuf, this`bitCnt, this`dataState, this`rxData, this`cmData, this`gotCm,
               this`decodedModulations, this`gotCj, this`zeroCount
      ensures Rx() == V8Receiver.PutBit(old(Rx()), bit)
    {
      hide Start, Octet, Shift;
      var s := Shift(bitSync, bit);
      SyncIrrelevant(Rx(), s, CI);
      SyncIrrelevant(Rx(), s, CM);
      bitSync := s;
      if s == CI_MATCH {
        DataInit(CI);
      } else if s == CM_MATCH {
        DataInit(CM);
      }
      if dataState != NoSync { OctetBit(bit); }
    }

    /** The next bit to modulate. */
    method GetBit() returns (bit: int)
      requires Valid()
      modifies txFifo
      ensures Valid() && View() == Emit(old(View()))
      ensures bit == if old(View()).tx == [] then 1 else old(View()).tx[0] as int
    {
      bit := txFifo.GetBit();
      if bit < 0 { bit := 1; }
    }

    /** Put words on the transmit queue. */
    method PutWords(vs: seq<nat>)
      requires Valid()
      modifies txFifo, txFifo.data
      ensures Valid() && View() == old(View()).(tx := V8Protocol.PutWords(old(View()).tx, vs))
    {
      hide Room;
      var i := 0;
      ghost var tx := txFifo.Contents();
      assert vs[0..] == vs;
      while i < |vs|
        invariant 0 <= i <= |vs| && Valid()
        invariant V8Protocol.PutWords(txFifo.Contents(), vs[i..]) == V8Protocol.PutWords(tx, vs)
        modifies txFifo, txFifo.data
      {
        assert vs[i..][1..] == vs[i + 1..];
        txFifo.PutBits(vs[i], 10);
        i := i + 1;
      }
    }

    /** Choose from the modulations in common. */
    method Choose()
      modifies this`selectedMask, this`selectedModulation
      requires Valid()
      ensures Valid() && View() == Select(old(View()))
    {
      selectedMask := Common(mask, decodedModulations);
      selectedModulation := SelectModulation(selectedMask);
    }

    /** Before and between the CI sequences. */
    method StartCI(now: nat) returns (ret: Modes)
      requires Valid() && (state == Wait1Second || state == SendCI)
      modifies this, txFifo, txFifo.data
      ensures Valid() && Result(View(), ret) == V8Protocol.Process(old(View()), now)
    {
      hide Room, Word, SelectModulation, Common, CmWords, CjWords, V8Protocol.PutWords;
      ret := NONE;
      if state == Wait1Second {
        if now >= startTimer { state, ciCount, ansamDetected := SendCI, 0, false; }
      } else {
        PutWords(CI_WORDS + CI_WORDS + CI_WORDS + CI_WORDS);
        state := CISend;
      }
    }

    /** While CI is sent and until ANSam is heard. */
    method AwaitAnsam(now: nat) returns (ret: Modes)
      requires Valid() && (state == CISend || state == CIOff)
      modifies this
      ensures Valid() && Result(View(), ret) == V8Protocol.Process(old(View()), now)
    {
      hide Room, Word, SelectModulation, Common, CmWords, CjWords, V8Protocol.PutWords;
      ret := NONE;
      if state == CISend {
        var n := txFifo.Size();
        if n == 0 { state, ciTimer := CIOff, Timer(now, 500); }
      } else if ansamDetected {
        ciTimer, state := Timer(now, TE), GotAnsam;
      } else if now >= ciTimer {
        ciCount := ciCount + 1;
        if ciCount == MAX_CI_SEQ { ret := HANGUP; } else { state := SendCI; }
      }
    }

    /** ANSam heard: prepare to receive JM. */
    method StartCM(now: nat) returns (ret: Modes)
      requires Valid() && state == GotAnsam
      modifies this
      ensures Valid() && Result(View(), ret) == V8Protocol.Process(old(View()), now)
    {
      hide Room, Word, SelectModulation, Common, CmWords, CjWords, V8Protocol.PutWords;
      ret := NONE;
      if now >= ciTimer {
        DecodeInit();
        state := CMSend;
      }
    }

    /** Send CM until JM is decoded; then choose, flush the queue and send CJ. */
    method SendCM(now: nat) returns (ret: Modes)
      requires Valid() && state == CMSend
      modifies this, txFifo, txFifo.data
      ensures Valid() && Result(View(), ret) == V8Protocol.Process(old(View()), now)
    {
      hide Room, Word, SelectModulation, Common, CmWords, CjWords, V8Protocol.PutWords;
      ret := NONE;
      var n := txFifo.Size();
      if gotCm {
        Choose();
        txFifo.Flush();
        PutWords(CjWords());
        state := CJSend;
      } else if n == 0 {
        PutWords(CmWords(mask));
      }
    }

    /** Until CJ is sent and 75 ms are over. */
    method EndCall(now: nat) returns (ret: Modes)
      requires Valid() && (state == CJSend || state == SigC)
      modifies this
      ensures Valid() && Result(View(), ret) == V8Protocol.Process(old(View()), now)
    {
      hide Room, Word, SelectModulation, Common, CmWords, CjWords, V8Protocol.PutWords;
      ret := NONE;
      if state == CJSend {
        var n := txFifo.Size();
        if n == 0 { startTimer, state := Timer(now, 75), SigC; }
      } else if now >= startTimer {
        ret := selectedModulation;
      }
    }

    /** The answerer waits, then sends ANSam and prepares to receive CM. */
    method StartAnswer(now: nat) returns (ret: Modes)
      requires Valid() && state == Wait
      modifies this
      ensures Valid() && Result(View(), ret) == V8Protocol.Process(old(View()), now)
    {
      hide Room, Word, SelectModulation, Common, CmWords, CjWords, V8Protocol.PutWords;
      ret := NONE;
      if now >= connectTimer {
        DecodeInit();
        connectTimer, state := Timer(now, 5000), CMWait;
      }
    }

    /** Choose when CM is decoded, within 5 seconds. */
    method AwaitCM(now: nat) returns (ret: Modes)
      requires Valid() && state == CMWait
      modifies this
      ensures Valid() && Result(View(), ret) == V8Protocol.Process(old(View()), now)
    {
      hide Room, Word, SelectModulation, Common, CmWords, CjWords, V8Protocol.PutWords;
      ret := NONE;
      if now >= connectTimer {
        ret := HANGUP;
      } else if gotCm {
        connectTimer, state := Timer(now, 5000), JMSend;
        Choose();
      }
    }

    /** Send JM until CJ is detected, and then 75 ms of silence. */
    method SendJM(now: nat) returns (ret: Modes)
      requires Valid() && (state == JMSend || state == SigA)
      modifies this, txFifo, txFifo.data
      ensures Valid() && Result(View(), ret) == V8Protocol.Process(old(View()), now)
    {
      hide Room, Word, SelectModulation, Common, CmWords, CjWords, V8Protocol.PutWords;
      ret := NONE;
      var n := txFifo.Size();
      if state == SigA {
        if now >= connectTimer { ret := selectedModulation; }
      } else if now >= connectTimer {
        ret := HANGUP;
      } else if gotCj {
        connectTimer, state := Timer(now, 75), SigA;
      } else if n == 0 {
        PutWords(CmWords(selectedMask));
      }
    }

    /** The protocol handler, called once per block of samples. */
    method Process(now: nat) returns (ret: Modes)
      requires Valid()
      modifies this, txFifo, txFifo.data
      ensures Valid() && Result(View(), ret) == V8Protocol.Process(old(View()), now)
    {
      hide V8Protocol.Process;
      match state
      case Wait1Second => ret := StartCI(now);
      case SendCI => ret := StartCI(now);
      case CISend => ret := AwaitAnsam(now);
      case CIOff => ret := AwaitAnsam(now);
      case GotAnsam => ret := StartCM(now);
      case CMSend => ret := SendCM(now);
      case CJSend => ret := EndCall(now);
      case SigC => ret := EndCall(now);
      case Wait => ret := StartAnswer(now);
      case CMWait => ret := AwaitCM(now);
      case JMSend => ret := SendJM(now);
      case SigA => ret := SendJM(now);
    }
  }

  lemma SyncIrrelevant(r: Receiver, s: bv20, kind: Kind)
    ensures Start(r.(sync := s), kind) == Start(r, kind).(sync := s)
  {
    hide Start;
    StartMoved(r, r.(sync := s), kind);
  }
}
