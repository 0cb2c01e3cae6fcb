/** Every V.8 call that goes on fairly ends: with agreement, or because a timer ran out. */
module V8Fair {
  import opened Bits
  import opened V8Codec
  import opened V8Receiver
  import opened V8Words
  import opened V8Framing
  import opened V8Protocol
  import opened V8System
  import opened V8Units
  import opened V8Liveness
  import opened V8Stages
  import opened V8Forward

  /** A block of samples: what happens in it, in this order, and the time at which the handlers are called. */
  datatype Round = Round(now: nat, moves: seq<Move>)

  /** A side that has not returned has taken all bits sent to it. */
  predicate Settled(s: System) {
    && (s.answerer.ret == NONE ==> s.caller.taken == |s.caller.sent|)
    && (s.caller.ret == NONE ==> s.answerer.taken == |s.answerer.sent|)
  }

  /**
   In the block, in any order and with anything besides: both handlers are called, both sides are asked for a bit at
   least once, and in the end no bit is under way.
   */
  predicate FairRound(s: System, r: Round) {
    && AllAt(r.moves, r.now)
    && Move(true, CallHandler(r.now)) in r.moves && Move(false, CallHandler(r.now)) in r.moves
    && Move(true, SendBit) in r.moves && Move(false, SendBit) in r.moves
    && Settled(Run(s, r.moves))
  }

  function After(s: System, rs: seq<Round>): System
    decreases rs
  {
    if rs == [] then s else After(Run(s, rs[0].moves), rs[1..])
  }

  /** The time of the last block. */
  function LastTime(rs: seq<Round>, before: nat): nat {
    if rs == [] then before else rs[|rs| - 1].now
  }

  /** Fair blocks, each later than the one before. */
  predicate FairRounds(s: System, rs: seq<Round>, before: nat)
    decreases rs
  {
    rs != [] ==>
      before < rs[0].now && FairRound(s, rs[0]) && FairRounds(Run(s, rs[0].moves), rs[1..], rs[0].now)
  }

  // ----- one block -----

  lemma {:induction false} InvRun(s: System, ms: seq<Move>)
    requires Inv(s)
    ensures Inv(Run(s, ms))
  {
    hide Inv, Next;
    if ms != [] {
      InvRun(s, ms[..|ms| - 1]);
      InvNext(Run(s, ms[..|ms| - 1]), ms[|ms| - 1]);
    }
  }

  lemma InvIsOk(s: System)
    requires Inv(s)
    ensures Ok(s)
  {
  }

  lemma {:induction false} DoneRun(g: Goal, s: System, ms: seq<Move>)
    requires Inv(s) && Done(g, s)
    ensures Done(g, Run(s, ms))
  {
    hide Inv, Next, Done;
    if ms != [] {
      var u := ms[..|ms| - 1];
      DoneRun(g, s, u);
      InvRun(s, u);
      InvIsOk(Run(s, u));
      StaysDone(g, Run(s, u), ms[|ms| - 1]);
    }
  }

  /** Who has given up has done so for good. */
  lemma GaveUpStays(s: System, m: Move)
    requires !Going(s)
    ensures !Going(Next(s, m))
  {
    hide Handle, Send, Take;
  }

  lemma {:induction false} GaveUpRun(s: System, ms: seq<Move>)
    requires !Going(s)
    ensures !Going(Run(s, ms))
  {
    hide Next, Going;
    if ms != [] {
      GaveUpRun(s, ms[..|ms| - 1]);
      GaveUpStays(Run(s, ms[..|ms| - 1]), ms[|ms| - 1]);
    }
  }

  /** The move that brings the aim nearer. */
  function HelpMove(g: Goal, s: System, now: nat): Move {
    Move(ByCaller(g), if CallHelps(g, s) then CallHandler(now) else SendBit)
  }

  /** After some moves: reached, or given up, or as near as before, or nearer if the helping move was among them. */
  predicate Nearer(g: Goal, s: System, ms: seq<Move>, now: nat)
    requires Ready(g, s)
  {
    var t := Run(s, ms);
    || Done(g, t) || !Going(t)
    || (&& Ready(g, t) && Left(g, t, now) <= Left(g, s, now)
        && (HelpMove(g, s, now) in ms && !OnTimer(g, s, now) && Left(g, s, now) > 0 ==>
              Left(g, t, now) < Left(g, s, now))
        && (Left(g, t, now) == Left(g, s, now) > 0 && !OnTimer(g, s, now) ==>
              !OnTimer(g, t, now) && CallHelps(g, t) == CallHelps(g, s)))
  }

  lemma {:induction false} MovesIn(g: Goal, s: System, ms: seq<Move>, now: nat)
    requires Inv(s) && Going(s) && Ready(g, s) && !Done(g, s) && AllAt(ms, now)
    ensures Nearer(g, s, ms, now)
  {
    hide Inv, Next, Done, Ready, Left, Going, OnTimer, CallHelps;
    if ms != [] {
      var u, m := ms[..|ms| - 1], ms[|ms| - 1];
      var v := Run(s, u);
      assert ms == u + [m];
      MovesIn(g, s, u, now);
      InvRun(s, u);
      if Done(g, v) {
        InvIsOk(v);
        StaysDone(g, v, m);
      } else if !Going(v) {
        GaveUpStays(v, m);
      } else {
        MovesForward(g, v, m, now);
        GoingNow(Next(v, m));
      }
    }
  }

  lemma GoingNow(s: System)
    ensures Going(s) <==> !GaveUp(s.caller) && !GaveUp(s.answerer)
  {
  }

  /** CJ, all taken, is found. */
  lemma CjTaken(s: System)
    requires Inv(s) && Going(s) && Settled(s) && Flushed(s.caller.e.state) && s.caller.e.tx == []
    ensures s.answerer.e.rx.gotCj && Chosen(s.answerer.e.state)
  {
    hide Feed, StreamBits, ChoiceOk, Common, SelectModulation, FlatWords, CjWords;
    var c, a := s.caller, s.answerer;
    if a.e.state == JMSend {
      var cut: nat, k: nat :| CutAt(c, a, cut, k);
      assert c.sent[cut..] + [] == c.sent[cut..];
      CjFed(c.sent, a.from, cut, k);
      assert c.sent[a.from..|c.sent|] == c.sent[a.from..];
    }
  }

  lemma CjFed(sent: seq<bit>, from: nat, cut: nat, k: nat)
    requires from <= cut <= |sent| && Feed(FRESH, sent[from..cut]).kind != NoSync
    requires sent[cut..] == FlatWords(CjWords()) + Ones(k)
    ensures Feed(FRESH, sent[from..]).gotCj
  {
    hide Feed, FlatWords, CjWords;
    var r, j := Feed(FRESH, sent[from..cut]), FlatWords(CjWords());
    assert sent[from..] == sent[from..cut] + (j + Ones(k));
    FeedConcat(FRESH, sent[from..cut], j + Ones(k));
    FeedConcat(r, j, Ones(k));
    CountingStays(FRESH, sent[from..cut]);
    CjAfter(r);
    CjStays(Feed(r, j), Ones(k));
  }

  lemma CmTaken(s: System, i: nat)
    requires Ready(CmDecoded(i), s) && UnitsLeft(s.caller, i) <= 0
    requires Inv(s) && Going(s) && Settled(s)
    ensures Done(CmDecoded(i), s)
  {
    hide UnitsLeft, Sends, FlushOk, ChoiceOk, Feed, StreamBits, SendOk, HearOk, Truthful;
    if !Done(CmDecoded(i), s) {
      WhileCm(s, i);
      UnitsNotNegative(s.caller, s.answerer, i);
      UnitsTaken(s.caller, s.answerer, i);
    }
  }

  lemma JmTaken(s: System, i: nat)
    requires Ready(JmDecoded(i), s) && UnitsLeft(s.answerer, i) <= 0
    requires Inv(s) && Going(s) && Settled(s)
    ensures Done(JmDecoded(i), s)
  {
    hide UnitsLeft, Sends, FlushOk, ChoiceOk, Feed, StreamBits, SendOk, HearOk, Truthful;
    if !Done(JmDecoded(i), s) {
      WhileJm(s, i);
      UnitsNotNegative(s.answerer, s.caller, i);
      UnitsTaken(s.answerer, s.caller, i);
    }
  }

  /** When nothing is left to be sent and all of it has been taken, the aim has been reached. */
  lemma NothingLeft(g: Goal, s: System, now: nat)
    requires Inv(s) && Going(s) && Settled(s) && Ready(g, s) && Left(g, s, now) <= 0
    ensures Done(g, s)
  {
    hide UnitsLeft, Sends, Inv, Settled, Going;
    match g
    case CmDecoded(i) => CmTaken(s, i);
    case JmDecoded(i) => JmTaken(s, i);
    case CjFound => CjTaken(s);
    case _ =>
  }

  lemma UnitsNotNegative(x: Side, l: Side, i: nat)
    requires Sends(x, l, i)
    ensures i <= |x.items| && UnitsLeft(x, i) >= 0
  {
    hide CountCm;
  }

  /** A fair block reaches the aim or brings it nearer, or someone gives up. */
  lemma RoundForward(g: Goal, s: System, r: Round, before: nat)
    requires Inv(s) && Going(s) && Settled(s) && Ready(g, s) && !Done(g, s) && before < r.now && FairRound(s, r)
    ensures var t := Run(s, r.moves);
      && Inv(t) && Settled(t)
      && (Done(g, t) || !Going(t) || (Ready(g, t) && Left(g, t, r.now) < Left(g, s, before)))
  {
    hide Inv, Next, Done, Ready, Left, Going, OnTimer, CallHelps, Settled, Run;
    InvRun(s, r.moves);
    if Left(g, s, r.now) <= 0 { NothingLeft(g, s, r.now); }
    Later(g, s, before, r.now);
    MovesIn(g, s, r.moves, r.now);
  }

  // ----- many blocks -----

  lemma {:induction false} KeptAfter(g: Goal, s: System, rs: seq<Round>, before: nat)
    requires Inv(s) && Settled(s) && FairRounds(s, rs, before) && (Done(g, s) || !Going(s))
    ensures var t := After(s, rs); Inv(t) && Settled(t) && (Done(g, t) || !Going(t))
    decreases rs
  {
    hide Inv, Done, Going, Settled, Run;
    if rs != [] {
      InvRun(s, rs[0].moves);
      if Done(g, s) { DoneRun(g, s, rs[0].moves); } else { GaveUpRun(s, rs[0].moves); }
      SettledAfter(s, rs[0]);
      KeptAfter(g, Run(s, rs[0].moves), rs[1..], rs[0].now);
    }
  }

  lemma SettledAfter(s: System, r: Round)
    requires FairRound(s, r)
    ensures Settled(Run(s, r.moves))
  {
  }

  /** After as many fair blocks as there is left to do, the aim has been reached, or someone has given up. */
  lemma {:induction false} Reaches(g: Goal, s: System, rs: seq<Round>, before: nat)
    requires Inv(s) && Settled(s) && FairRounds(s, rs, before)
    requires Going(s) && !Done(g, s) ==> Ready(g, s) && |rs| >= Left(g, s, before)
    ensures var t := After(s, rs); Inv(t) && Settled(t) && (Done(g, t) || !Going(t))
    decreases rs
  {
    hide Inv, Done, Going, Settled, Ready, Left, Run, FairRound;
    if Done(g, s) || !Going(s) {
      KeptAfter(g, s, rs, before);
    } else {
      if Left(g, s, before) <= 0 { NothingLeft(g, s, before); }
      RoundForward(g, s, rs[0], before);
      var t := Run(s, rs[0].moves);
      if Done(g, t) || !Going(t) {
        KeptAfter(g, t, rs[1..], rs[0].now);
      } else {
        Reaches(g, t, rs[1..], rs[0].now);
      }
    }
  }

  lemma {:induction false} Split(s: System, a: seq<Round>, b: seq<Round>, before: nat)
    requires FairRounds(s, a + b, before)
    ensures FairRounds(s, a, before) && FairRounds(After(s, a), b, LastTime(a, before))
    ensures After(s, a + b) == After(After(s, a), b)
    decreases a
  {
    hide FairRound, Run;
    if a == [] {
      assert a + b == b;
    } else {
      assert (a + b)[0] == a[0] && (a + b)[1..] == a[1..] + b;
      Split(Run(s, a[0].moves), a[1..], b, a[0].now);
    }
  }

  // ----- the stages of a call -----

  /** The last timers are set when they begin to matter. */
  predicate Timers(s: System, now: nat) {
    && (s.answerer.e.state == SigA ==> s.answerer.e.connectTimer <= now + 600)
    && (s.caller.e.state == SigC ==> s.caller.e.startTimer <= now + 600)
  }

  lemma TimersAct(s: Side, other: Side, ev: Event, before: nat, now: nat)
    requires before <= now && (ev.CallHandler? ==> ev.now == now)
    ensures var t := Act(s, other, ev).0;
      && ((s.e.state == SigA ==> s.e.connectTimer <= before + 600) && t.e.state == SigA ==>
            t.e.connectTimer <= now + 600)
      && ((s.e.state == SigC ==> s.e.startTimer <= before + 600) && t.e.state == SigC ==>
            t.e.startTimer <= now + 600)
  {
    hide PutWords, SelectModulation, Common, CmWords, CjWords, PutBit;
  }

  lemma {:induction false} TimersRun(s: System, ms: seq<Move>, before: nat, now: nat)
    requires Timers(s, before) && before <= now && AllAt(ms, now)
    ensures Timers(Run(s, ms), now)
  {
    hide Act;
    if ms != [] {
      var u, m := ms[..|ms| - 1], ms[|ms| - 1];
      TimersRun(s, u, before, now);
      var v := Run(s, u);
      TimersAct(v.caller, v.answerer, m.ev, now, now);
      TimersAct(v.answerer, v.caller, m.ev, now, now);
      OtherSide(v.caller, v.answerer, m.ev);
      OtherSide(v.answerer, v.caller, m.ev);
    }
  }

  lemma {:induction false} TimersAfter(s: System, rs: seq<Round>, before: nat)
    requires Timers(s, before) && FairRounds(s, rs, before)
    ensures Timers(After(s, rs), LastTime(rs, before))
    decreases rs
  {
    hide Timers, Run;
    if rs != [] {
      TimersRun(s, rs[0].moves, before, rs[0].now);
      TimersAfter(Run(s, rs[0].moves), rs[1..], rs[0].now);
    }
  }

  /** Where a stage begins and ends: between blocks. */
  ghost predicate Between(s: System, before: nat) {
    Inv(s) && Settled(s) && Timers(s, before)
  }

  /** One aim kept and another reached. */
  lemma Stage(h: Goal, g: Goal, s: System, rs: seq<Round>, before: nat)
    requires Between(s, before) && FairRounds(s, rs, before) && (Going(s) ==> Done(h, s))
    requires Going(s) && !Done(g, s) ==> Ready(g, s) && |rs| >= Left(g, s, before)
    ensures var t := After(s, rs);
      Between(t, LastTime(rs, before)) && (Going(t) ==> Done(h, t) && Done(g, t))
  {
    hide Inv, Settled, Timers, Done, Ready, Left, Going, FairRounds, After;
    KeptAfter(h, s, rs, before);
    Reaches(g, s, rs, before);
    TimersAfter(s, rs, before);
  }

  const OPENING: nat := 10 * CYCLE + 20601
  const UNITS: nat := 303

  /** From the start until the caller sends CM and the answerer listens. */
  lemma Opening(cm: Modes, am: Modes, ct: nat, at: nat, rs: seq<Round>, before: nat)
    requires var s := Call(cm, am, ct, at); FairRounds(s, rs, before) && |rs| >= OPENING + ct + at
    ensures var t := After(Call(cm, am, ct, at), rs);
      Between(t, LastTime(rs, before)) && (Going(t) ==> Done(CallerOpen, t) && Done(AnswererOpen, t))
  {
    hide Inv, FairRounds, After;
    var s := Call(cm, am, ct, at);
    StartInv(cm, am, ct, at);
    Reaches(CallerOpen, s, rs, before);
    Reaches(AnswererOpen, s, rs, before);
    TimersAfter(s, rs, before);
  }

  /** Until the answerer has decoded a CM. */
  lemma CmStage(s: System, rs: seq<Round>, before: nat)
    requires Between(s, before) && FairRounds(s, rs, before) && |rs| >= UNITS
    requires Going(s) ==> Done(CallerOpen, s) && Done(AnswererOpen, s)
    ensures var t := After(s, rs);
      Between(t, LastTime(rs, before)) && (Going(t) ==> Done(CallerOpen, t) && Done(CmDecoded(0), t))
  {
    hide FairRounds, After, FlushOk, StreamBits, Feed, Timers;
    var i := |s.caller.items|;
    if Going(s) && !Done(CmDecoded(i), s) { BeginUnits(s.caller, s.answerer); }
    Stage(CallerOpen, CmDecoded(i), s, rs, before);
  }

  /** Counting of sequences begins between blocks. */
  lemma BeginUnits(x: Side, l: Side)
    requires SendOk(x) && HearOk(l, x) && !Flushed(x.e.state)
    ensures Sends(x, l, |x.items|) && UnitsLeft(x, |x.items|) <= UNITS
  {
    hide StreamBits, Feed;
    assert x.items[|x.items|..] == [] && x.items[..|x.items|] == x.items;
    assert |x.sent| + |x.e.tx| == |StreamBits(x.items, Offered(x.e))|;
  }

  lemma ChoiceStage(s: System, rs: seq<Round>, before: nat)
    requires Between(s, before) && FairRounds(s, rs, before) && |rs| >= 1
    requires Going(s) ==> Done(CallerOpen, s) && Done(CmDecoded(0), s)
    ensures var t := After(s, rs);
      Between(t, LastTime(rs, before)) && (Going(t) ==> Done(CallerOpen, t) && Done(AnswererChooses, t))
  {
    hide FairRounds, After, Between;
    Stage(CallerOpen, AnswererChooses, s, rs, before);
  }

  lemma JmStage(s: System, rs: seq<Round>, before: nat)
    requires Between(s, before) && FairRounds(s, rs, before) && |rs| >= UNITS
    requires Going(s) ==> Done(CallerOpen, s) && Done(AnswererChooses, s)
    ensures var t := After(s, rs);
      Between(t, LastTime(rs, before)) && (Going(t) ==> Done(AnswererChooses, t) && Done(JmDecoded(0), t))
  {
    hide FairRounds, After, FlushOk, StreamBits, Feed, Timers;
    var i := |s.answerer.items|;
    if Going(s) && !Done(JmDecoded(i), s) { BeginUnits(s.answerer, s.caller); }
    Stage(AnswererChooses, JmDecoded(i), s, rs, before);
  }

  lemma FlushStage(s: System, rs: seq<Round>, before: nat)
    requires Between(s, before) && FairRounds(s, rs, before) && |rs| >= 1
    requires Going(s) ==> Done(AnswererChooses, s) && Done(JmDecoded(0), s)
    ensures var t := After(s, rs);
      Between(t, LastTime(rs, before)) && (Going(t) ==> Done(AnswererChooses, t) && Done(CallerChooses, t))
  {
    hide FairRounds, After, Between;
    Stage(AnswererChooses, CallerChooses, s, rs, before);
  }

  lemma QueueBound(s: System, before: nat)
    requires Between(s, before)
    ensures |s.caller.e.tx| <= 120
  {
    hide Feed, StreamBits, FlushOk;
  }

  lemma CjStage(s: System, rs: seq<Round>, before: nat)
    requires Between(s, before) && FairRounds(s, rs, before) && |rs| >= 120
    requires Going(s) ==> Done(CallerChooses, s)
    ensures var t := After(s, rs);
      Between(t, LastTime(rs, before)) && (Going(t) ==> Done(CallerChooses, t) && Done(CjFound, t))
  {
    hide FairRounds, After, Between;
    QueueBound(s, before);
    Stage(CallerChooses, CjFound, s, rs, before);
  }

  lemma EndStage(s: System, rs: seq<Round>, before: nat)
    requires Between(s, before) && FairRounds(s, rs, before) && |rs| >= 121
    requires Going(s) ==> Done(CallerChooses, s) && Done(CjFound, s)
    ensures var t := After(s, rs);
      Between(t, LastTime(rs, before)) && (Going(t) ==> Done(AnswererEnds, t) && Done(CallerEnds, t))
  {
    hide FairRounds, After, Between;
    QueueBound(s, before);
    Stage(CallerChooses, CallerEnds, s, rs, before);
    Stage(CallerChooses, AnswererEnds, s, rs, before);
  }

  lemma ReturnStage(s: System, rs: seq<Round>, before: nat)
    requires Between(s, before) && FairRounds(s, rs, before) && |rs| >= 601
    requires Going(s) ==> Done(AnswererEnds, s) && Done(CallerEnds, s)
    ensures var t := After(s, rs);
      Between(t, LastTime(rs, before)) && (Going(t) ==> Done(AnswererReturns, t) && Done(CallerReturns, t))
  {
    hide FairRounds, After, Inv, Settled;
    Stage(CallerEnds, CallerReturns, s, rs, before);
    Stage(AnswererEnds, AnswererReturns, s, rs, before);
  }

  // ----- the whole call -----

  /** All moves of the blocks. */
  function AllMoves(rs: seq<Round>): seq<Move>
    decreases rs
  {
    if rs == [] then [] else rs[0].moves + AllMoves(rs[1..])
  }

  lemma {:induction false} AfterIsRun(s: System, rs: seq<Round>)
    ensures After(s, rs) == Run(s, AllMoves(rs))
    decreases rs
  {
    hide Run;
    if rs == [] {
      NoMoves(s);
    } else {
      AfterIsRun(Run(s, rs[0].moves), rs[1..]);
      RunConcat(s, rs[0].moves, AllMoves(rs[1..]));
    }
  }

  lemma NoMoves(s: System)
    ensures Run(s, []) == s
  {
  }

  /** The blocks that a call takes at most, one sample a block, besides the time to the start of both sides. */
  const ENOUGH: nat := OPENING + 2 * UNITS + 844

  /** The first n blocks, and the rest. */
  lemma Cut(s: System, rs: seq<Round>, before: nat, n: nat)
    requires FairRounds(s, rs, before) && n <= |rs|
    ensures FairRounds(s, rs[..n], before) && FairRounds(After(s, rs[..n]), rs[n..], LastTime(rs[..n], before))
    ensures After(s, rs) == After(After(s, rs[..n]), rs[n..])
  {
    hide FairRounds, After;
    assert rs[..n] + rs[n..] == rs;
    Split(s, rs[..n], rs[n..], before);
  }

  /** After the choice of the answerer. */
  lemma SecondHalf(s: System, rs: seq<Round>, before: nat)
    requires Between(s, before) && FairRounds(s, rs, before) && |rs| >= UNITS + 843
    requires Going(s) ==> Done(CallerOpen, s) && Done(AnswererChooses, s)
    ensures var t := After(s, rs); Going(t) ==> Done(AnswererReturns, t) && Done(CallerReturns, t)
  {
    hide FairRounds, After, Between, Going, Done;
    var jm, rest := rs[..UNITS], rs[UNITS..];
    Cut(s, rs, before, UNITS);
    JmStage(s, jm, before);
    var s1, t1 := After(s, jm), LastTime(jm, before);
    Cut(s1, rest, t1, 1);
    FlushStage(s1, rest[..1], t1);
    var s2, t2 := After(s1, rest[..1]), LastTime(rest[..1], t1);
    var cj := rest[1..];
    Cut(s2, cj, t2, 120);
    CjStage(s2, cj[..120], t2);
    var s3, t3 := After(s2, cj[..120]), LastTime(cj[..120], t2);
    var last := cj[120..];
    Cut(s3, last, t3, 121);
    EndStage(s3, last[..121], t3);
    ReturnStage(After(s3, last[..121]), last[121..], LastTime(last[..121], t3));
  }

  lemma BothReturn(cm: Modes, am: Modes, ct: nat, at: nat, rs: seq<Round>, before: nat)
    requires FairRounds(Call(cm, am, ct, at), rs, before) && |rs| >= ENOUGH + ct + at
    ensures var t := After(Call(cm, am, ct, at), rs); Going(t) ==> Done(AnswererReturns, t) && Done(CallerReturns, t)
  {
    hide FairRounds, After, Between, Going, Done, Call;
    var s, n := Call(cm, am, ct, at), OPENING + ct + at;
    Cut(s, rs, before, n);
    Opening(cm, am, ct, at, rs[..n], before);
    var s1, t1, cm' := After(s, rs[..n]), LastTime(rs[..n], before), rs[n..];
    Cut(s1, cm', t1, UNITS);
    CmStage(s1, cm'[..UNITS], t1);
    var s2, t2, rest := After(s1, cm'[..UNITS]), LastTime(cm'[..UNITS], t1), cm'[UNITS..];
    Cut(s2, rest, t2, 1);
    ChoiceStage(s2, rest[..1], t2);
    SecondHalf(After(s2, rest[..1]), rest[1..], LastTime(rest[..1], t2));
  }

  /**
   Whatever both sides offer, whenever they start, and in whatever order things happen within the blocks: after
   enough fair blocks both have returned the best modulation they have in common, unless one has hung up,
   the caller after ten CI sequences or the answerer when a timer of five seconds ran out.
   */
  lemma FairCall(cm: Modes, am: Modes, ct: nat, at: nat, rs: seq<Round>, before: nat)
    requires FairRounds(Call(cm, am, ct, at), rs, before) && |rs| >= ENOUGH + ct + at
    ensures var t := Run(Call(cm, am, ct, at), AllMoves(rs));
      || (&& Finished(t.caller) && Finished(t.answerer)
          && t.caller.ret == SelectModulation(Common(cm, am)) && t.answerer.ret == t.caller.ret)
      || (t.caller.ret == HANGUP && t.caller.e.state == CIOff)
      || (t.answerer.ret == HANGUP && (t.answerer.e.state == CMWait || t.answerer.e.state == JMSend))
  {
    hide FairRounds, After, Call, SelectModulation, Common, Run, Inv, Done, Finished, Going;
    var s := Call(cm, am, ct, at);
    BothReturn(cm, am, ct, at, rs, before);
    AfterIsRun(s, rs);
    Agreement(cm, am, ct, at, AllMoves(rs));
    StartInv(cm, am, ct, at);
    InvRun(s, AllMoves(rs));
    WhyGivenUp(Run(s, AllMoves(rs)));
  }

  lemma WhyGivenUp(s: System)
    requires Inv(s) && (Going(s) ==> Done(AnswererReturns, s) && Done(CallerReturns, s))
    ensures (Finished(s.caller) && Finished(s.answerer))
      || (s.caller.ret == HANGUP && s.caller.e.state == CIOff)
      || (s.answerer.ret == HANGUP && (s.answerer.e.state == CMWait || s.answerer.e.state == JMSend))
  {
    hide SendOk, HearOk, ChoiceOk, Truthful, FlushOk;
  }

  // ----- there are such calls -----

  /** One side takes all that has been sent to it. */
  lemma {:induction false} TakeAll(s: System, byCaller: bool, now: nat) returns (ms: seq<Move>)
    requires Ok(s)
    ensures AllAt(ms, now)
    ensures var t := Run(s, ms);
      && Ok(t) && t.caller.ret == s.caller.ret && t.answerer.ret == s.answerer.ret
      && t.caller.sent == s.caller.sent && t.answerer.sent == s.answerer.sent
      && (byCaller ==>
            t.caller.taken == s.caller.taken && (t.caller.ret == NONE ==> t.answerer.taken == |t.answerer.sent|))
      && (!byCaller ==>
            t.answerer.taken == s.answerer.taken && (t.answerer.ret == NONE ==> t.caller.taken == |t.caller.sent|))
    decreases if byCaller then |s.answerer.sent| - s.answerer.taken else |s.caller.sent| - s.caller.taken
  {
    hide Run, Ok, Next;
    TakenBounds(s);
    var x, y := if byCaller then s.caller else s.answerer, if byCaller then s.answerer else s.caller;
    NoMoves(s);
    if x.ret != NONE || y.taken == |y.sent| {
      ms := [];
    } else {
      var m := Move(byCaller, TakeBit);
      TakeOne(s, byCaller);
      NextOk(s, m);
      var rest := TakeAll(Next(s, m), byCaller, now);
      RunOne(s, m);
      RunConcat(s, [m], rest);
      ms := [m] + rest;
    }
  }

  lemma TakenBounds(s: System)
    requires Ok(s)
    ensures s.caller.taken <= |s.caller.sent| && s.answerer.taken <= |s.answerer.sent|
  {
    hide HearOk, ChoiceOk, Truthful, StreamBits;
  }

  lemma TakeOne(s: System, byCaller: bool)
    requires var x, y := if byCaller then s.caller else s.answerer, if byCaller then s.answerer else s.caller;
      x.ret == NONE && y.taken < |y.sent|
    ensures var t := Next(s, Move(byCaller, TakeBit));
      && t.caller.ret == s.caller.ret && t.answerer.ret == s.answerer.ret
      && t.caller.sent == s.caller.sent && t.answerer.sent == s.answerer.sent
      && t.caller.taken == s.caller.taken + (if byCaller then 0 else 1)
      && t.answerer.taken == s.answerer.taken + (if byCaller then 1 else 0)
  {
    hide Take;
    if byCaller { TakeFrame(s.caller, s.answerer); } else { TakeFrame(s.answerer, s.caller); }
  }

  /** From every state some fair block goes on. */
  lemma SomeRound(s: System, now: nat) returns (r: Round)
    requires Ok(s)
    ensures r.now == now && FairRound(s, r) && Ok(Run(s, r.moves))
  {
    hide Run, Next, Ok;
    var a := [Move(true, CallHandler(now)), Move(false, CallHandler(now))];
    var b := [Move(true, SendBit), Move(false, SendBit)];
    OkRun(s, a + b);
    var t := Run(s, a + b);
    var x := TakeAll(t, true, now);
    var y := TakeAll(Run(t, x), false, now);
    RunConcat(s, a + b, x);
    RunConcat(s, a + b + x, y);
    r := Round(now, a + b + x + y);
    InIt(a, b, x, y);
  }

  lemma InIt(a: seq<Move>, b: seq<Move>, x: seq<Move>, y: seq<Move>)
    ensures forall m :: m in a || m in b ==> m in a + b + x + y
  {
  }

  lemma {:induction false} OkRun(s: System, ms: seq<Move>)
    requires Ok(s)
    ensures Ok(Run(s, ms))
  {
    hide Ok, Next;
    if ms != [] {
      OkRun(s, ms[..|ms| - 1]);
      NextOk(Run(s, ms[..|ms| - 1]), ms[|ms| - 1]);
    }
  }

  /** So there are fair calls of any length. */
  lemma {:induction false} SomeRounds(s: System, n: nat, before: nat) returns (rs: seq<Round>)
    requires Ok(s)
    ensures |rs| == n && FairRounds(s, rs, before)
    decreases n
  {
    hide Ok, FairRound, Run;
    if n == 0 {
      rs := [];
    } else {
      var r := SomeRound(s, before + 1);
      var rest := SomeRounds(Run(s, r.moves), n - 1, before + 1);
      rs := [r] + rest;
      assert rs[1..] == rest;
    }
  }
}
