/** What brings a V.8 call forward: the stages of a call, and what is left to do in each. */
module V8Liveness {
  import opened V8Codec
  import opened V8Receiver
  import opened V8Words
  import opened V8Framing
  import opened V8Protocol
  import opened V8System
  import opened V8Units

  /** A side that has returned without having agreed: a timer ran out. */
  predicate GaveUp(s: Side) {
    s.ret != NONE && !Finished(s)
  }

  // ----- what every run keeps, besides -----

  /** The caller's queue was flushed when it had sent `cut` bits, and it then sent or queued CJ and k idle ones. */
  predicate CutAt(c: Side, a: Side, cut: nat, k: nat) {
    && a.from <= cut <= |c.sent| && Feed(FRESH, c.sent[a.from..cut]).kind != NoSync
    && c.sent[cut..] + c.e.tx == FlatWords(CjWords()) + Ones(k) && (k > 0 ==> c.e.tx == [])
  }

  ghost predicate FlushOk(s: System) {
    Flushed(s.caller.e.state) ==> exists cut: nat, k: nat :: CutAt(s.caller, s.answerer, cut, k)
  }

  /** Who has returned has agreed, or has hung up after ten CI sequences unanswered or a timer that ran out. */
  predicate RetOk(s: Side) {
    s.ret != NONE ==>
      s.e.state == SigA || s.e.state == SigC
      || (s.ret == HANGUP && (s.e.state == CIOff || s.e.state == CMWait || s.e.state == JMSend))
  }

  ghost predicate Inv(s: System) {
    && Ok(s) && FlushOk(s) && (s.answerer.e.state == SigA ==> s.answerer.e.rx.gotCj)
    && (s.caller.e.state == SigC ==> s.caller.e.tx == []) && RetOk(s.caller) && RetOk(s.answerer)
  }

  /** An event at one side changes nothing of the other but the count of bits taken. */
  lemma OtherSide(s: Side, other: Side, ev: Event)
    ensures Act(s, other, ev).1 == other.(taken := Act(s, other, ev).1.taken)
  {
  }

  lemma {:induction false} StartInv(cm: Modes, am: Modes, ct: nat, at: nat)
    ensures Inv(Call(cm, am, ct, at))
  {
    hide Ok;
    StartOk(cm, am, ct, at);
  }

  /** CJ goes out bit by bit, then idle ones. */
  lemma SendCut(c: Side, a: Side, cut: nat, k: nat)
    requires CutAt(c, a, cut, k) && c.e.state == CJSend
    ensures CutAt(Send(c), a, cut, if c.e.tx == [] then k + 1 else k)
  {
    hide Feed, FlatWords, CjWords;
    var f := Send(c);
    assert f.sent[a.from..cut] == c.sent[a.from..cut];
    var j, tail := FlatWords(CjWords()), c.sent[cut..];
    if c.e.tx == [] {
      assert tail + [] == tail;
      assert f.sent[cut..] == tail + [1];
      assert Ones(k + 1) == Ones(k) + [1];
      assert j + Ones(k) + [1] == j + (Ones(k) + [1]);
      assert f.sent[cut..] + [] == f.sent[cut..];
    } else {
      assert k == 0 && j + Ones(0) == j;
      assert c.e.tx[0] == (tail + c.e.tx)[|tail|] == j[|tail|];
      assert f.sent[cut..] == tail + [c.e.tx[0]];
      assert tail + c.e.tx == tail + [c.e.tx[0]] + c.e.tx[1..];
    }
  }

  /** At the flush the answerer is synchronised, because it has decoded a sequence. */
  lemma FlushCut(c: Side, a: Side, now: nat)
    requires SideOk(c, a) && SideOk(a, c) && c.e.calling && Chosen(a.e.state)
    requires c.e.state == CMSend && c.e.rx.gotCm
    ensures CutAt(Handle(c, a, now), a, |c.sent|, 0)
  {
    hide Feed, FlatWords, CjWords, StreamBits, SelectModulation, Common, PutWords;
    var cut := |c.sent|;
    var heard := c.sent[a.from..a.from + |a.heard|];
    var rest := c.sent[a.from + |a.heard|..cut];
    assert c.sent[a.from..cut] == heard + rest;
    KindStays(FRESH, heard);
    FeedConcat(FRESH, heard, rest);
    KindStays(Feed(FRESH, heard), rest);
    CjQueue();
    var f := Handle(c, a, now);
    assert f.e.tx == FlatWords(CjWords()) && f.sent == c.sent;
    assert c.sent[cut..] + FlatWords(CjWords()) == FlatWords(CjWords()) + Ones(0);
  }

  lemma CjQueue()
    ensures PutWords([], CjWords()) == FlatWords(CjWords())
  {
    hide Word;
    PutWordsFits([], CjWords());
    assert [] + FlatWords(CjWords()) == FlatWords(CjWords());
  }

  /** A call of the handler elsewhere leaves queue and line as they are. */
  lemma HandleCut(c: Side, a: Side, now: nat, cut: nat, k: nat)
    requires CutAt(c, a, cut, k) && Flushed(c.e.state)
    ensures CutAt(Handle(c, a, now), a, cut, k)
  {
    hide Feed, FlatWords, CjWords, PutWords, SelectModulation, Common;
  }

  lemma CallerFlush(s: System, ev: Event)
    requires Inv(s)
    ensures FlushOk(Next(s, Move(true, ev)))
  {
    hide SideOk, CutAt, Handle, Send, Take;
    var c, a := s.caller, s.answerer;
    var f := Next(s, Move(true, ev));
    if c.ret == NONE {
      match ev
      case CallHandler(now) =>
        HandleFrame(c, a, now);
        FlushWhen(c, a, now);
        if Flushed(c.e.state) {
          var cut: nat, k: nat :| CutAt(c, a, cut, k);
          HandleCut(c, a, now, cut, k);
        } else if Flushed(f.caller.e.state) {
          FlushCut(c, a, now);
        }
      case SendBit =>
        SendFrame(c);
        if Sending(c.e.state) && Flushed(c.e.state) {
          var cut: nat, k: nat :| CutAt(c, a, cut, k);
          SendCut(c, a, cut, k);
        }
      case TakeBit =>
        if a.taken < |a.sent| {
          TakeFrame(c, a);
          if Flushed(c.e.state) {
            var cut: nat, k: nat :| CutAt(c, a, cut, k);
            CutElsewhere(c, a, Take(c, a), a.(taken := a.taken + 1), cut, k);
          }
        }
      case HearTone =>
        if Flushed(c.e.state) {
          var cut: nat, k: nat :| CutAt(c, a, cut, k);
          CutElsewhere(c, a, f.caller, a, cut, k);
        }
    }
  }

  lemma CutElsewhere(c: Side, a: Side, c': Side, a': Side, cut: nat, k: nat)
    requires CutAt(c, a, cut, k) && c'.sent == c.sent && c'.e.tx == c.e.tx && a'.from == a.from
    ensures CutAt(c', a', cut, k)
  {
  }

  lemma FlushWhen(c: Side, a: Side, now: nat)
    ensures Flushed(Handle(c, a, now).e.state) && !Flushed(c.e.state) ==> c.e.state == CMSend && c.e.rx.gotCm
  {
    hide PutWords, SelectModulation, Common, CmWords, CjWords;
  }

  lemma NoRestart(s: Side, other: Side, ev: Event)
    ensures Chosen(s.e.state) ==> Act(s, other, ev).0.from == s.from
  {
    hide Process, Feed;
  }

  lemma AnswererFlush(s: System, ev: Event)
    requires Inv(s)
    ensures FlushOk(Next(s, Move(false, ev)))
  {
    hide SideOk, CutAt, Act;
    OtherSide(s.answerer, s.caller, ev);
    NoRestart(s.answerer, s.caller, ev);
    var f := Next(s, Move(false, ev));
    if Flushed(s.caller.e.state) {
      var cut: nat, k: nat :| CutAt(s.caller, s.answerer, cut, k);
      CutElsewhere(s.caller, s.answerer, f.caller, f.answerer, cut, k);
    }
  }

  /** The answerer ends only after it has heard CJ. */
  lemma EndedHeard(s: Side, other: Side, ev: Event)
    requires s.e.state == SigA ==> s.e.rx.gotCj
    ensures var t := Act(s, other, ev).0; t.e.state == SigA ==> t.e.rx.gotCj
  {
    hide PutWords, SelectModulation, Common, CmWords, CjWords, PutBit;
    if ev.TakeBit? && s.ret == NONE && other.taken < |other.sent| && s.e.rx.gotCj {
      FeedOne(s.e.rx, other.sent[other.taken]);
      CjStays(s.e.rx, [other.sent[other.taken]]);
    }
  }

  /** The caller ends only after its queue has been sent. */
  lemma EndedEmpty(s: Side, other: Side, ev: Event)
    requires s.e.state == SigC ==> s.e.tx == []
    ensures var t := Act(s, other, ev).0; t.e.state == SigC ==> t.e.tx == []
  {
    hide PutWords, SelectModulation, Common, CmWords, CjWords, PutBit;
  }

  lemma RetAct(s: Side, other: Side, ev: Event)
    requires RetOk(s)
    ensures RetOk(Act(s, other, ev).0)
  {
    hide PutWords, SelectModulation, Common, CmWords, CjWords, PutBit;
  }

  lemma InvNext(s: System, m: Move)
    requires Inv(s)
    ensures Inv(Next(s, m))
  {
    hide Ok, FlushOk, Act;
    NextOk(s, m);
    if m.byCaller {
      RetAct(s.caller, s.answerer, m.ev);
      CallerFlush(s, m.ev);
      EndedEmpty(s.caller, s.answerer, m.ev);
      OtherSide(s.caller, s.answerer, m.ev);
    } else {
      AnswererFlush(s, m.ev);
      RetAct(s.answerer, s.caller, m.ev);
      OtherSide(s.answerer, s.caller, m.ev);
      EndedHeard(s.answerer, s.caller, m.ev);
    }
  }
}
