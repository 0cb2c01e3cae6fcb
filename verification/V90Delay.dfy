/** Decoding what the encoder emits: the data of an earlier frame, whatever states the shaper chose. */
module V90Delay {
  import opened Bits
  import opened V90Tables
  import opened V90Radix
  import opened V90Signs
  import opened V90Slicer
  import opened V90Stream

  /** Every level of the constellation can carry a sign. */
  ghost predicate Signable(p: Params)
    requires Sound(p)
  {
    forall j :: 0 <= j < 6 ==> Levels(p.alaw)[p.codes[j][p.M[j] - 1]] > 0
  }

  /** A decoder in step with what has been emitted up to frame n. */
  predicate Synced(p: Params, frames: seq<seq<u1>>, qs: seq<u1>, d: nat, n: nat, st: SignState)
    requires FramesOk(p, frames) && StatesOk(p, frames, qs) && n <= |frames|
  {
    if p.S == 6 then st.last == LastBefore(p, frames, n) else
      InStep(p.S, st, SignsBefore(p, frames, qs, Subframes(p.S) * n), StateBefore(qs, Subframes(p.S) * n),
             LastAt(p, frames, n - d))
  }

  // ----- magnitudes -----

  /** A level sent is recognised. */
  lemma LevelFound(p: Params, j: nat, k: nat)
    requires Sound(p) && j < 6 && k < p.M[j]
    ensures p.M[j] <= CODES
    ensures var x := Levels(p.alaw)[p.codes[j][k]];
      InRange(Row(p, j), p.M[j], x) && Slice(Row(p, j), p.M[j], x) == k
  {
    hide Levels, Row;
    RowIsTable(p, j);
    DescendingCount(p.codes[j], p.M[j]);
    var tab := Row(p, j);
    assert tab[k] == Levels(p.alaw)[p.codes[j][k]];
    assert k > 0 ==> tab[k] < tab[0];
    assert k < p.M[j] - 1 ==> tab[p.M[j] - 1] < tab[k];
    AboveIs(tab, p.M[j], tab[k], k);
  }

  /** The weakest code's level, sent before the start, stays inside the tables. */
  lemma IdleInRange(p: Params, j: nat)
    requires Sound(p) && j < 6
    ensures p.M[j] <= CODES && InRange(Row(p, j), p.M[j], Levels(p.alaw)[0])
  {
    hide Levels, Row;
    DescendingCount(p.codes[j], p.M[j]);
    var tab, c, m := Row(p, j), p.codes[j], p.M[j];
    if c[0] > 0 { LevelsAscend(p.alaw, 0, c[0]); }
    assert tab[m - 1] == Levels(p.alaw)[c[m - 1]] && tab[0] == Levels(p.alaw)[c[0]];
  }

  lemma LevelAligned(p: Params, frames: seq<seq<u1>>, d: nat, n: nat, i: nat)
    requires Sound(p) && FramesOk(p, frames) && LevelDelay(p, d) && n < |frames| && i < 6
    ensures n < d ==> LevelAt(p, frames, n, i) == Levels(p.alaw)[0]
    ensures n >= d ==> LevelAt(p, frames, n, i) == Levels(p.alaw)[Code(p, frames[n - d], i)]
  {
    hide Levels, Code, CodesOk;
    var pos := 6 * n - FrameSize(p.S) * p.ld + i;
    assert pos == 6 * (n - d) + i;
    hide LevelDelay;
    if n >= d { DivModUnique(pos, 6, n - d, i); }
  }

  lemma SignedMagnitude(g: u1, x: nat)
    ensures Magnitude(Signed(g, x)) == x
    ensures x > 0 ==> (if Signed(g, x) < 0 then 0 else 1) == g
  {
  }

  /** What is emitted is inside the decoder's tables. */
  lemma EmittedOk(p: Params, frames: seq<seq<u1>>, qs: seq<u1>, d: nat, n: nat)
    requires Sound(p) && FramesOk(p, frames) && StatesOk(p, frames, qs) && LevelDelay(p, d) && n < |frames|
    ensures SamplesOk(p, Emitted(p, frames, qs, n))
  {
    hide Levels, Row, FrameSigns, LevelAt;
    var x := Emitted(p, frames, qs, n);
    forall j | 0 <= j < 6 ensures p.M[j] <= CODES && InRange(Row(p, j), p.M[j], Magnitude(x[j])) {
      SignedMagnitude(FrameSigns(p, frames, qs, n)[j], LevelAt(p, frames, n, j));
      LevelAligned(p, frames, d, n, j);
      IdleInRange(p, j);
      if n >= d { LevelFound(p, j, Digits(Word(frames[n - d][p.S..]), p.M)[j]); }
    }
  }

  /** The digits sent are found again; the signs play no part. */
  lemma DigitsFound(p: Params, frames: seq<seq<u1>>, qs: seq<u1>, d: nat, n: nat)
    requires Sound(p) && FramesOk(p, frames) && StatesOk(p, frames, qs) && LevelDelay(p, d) && d <= n < |frames|
    ensures SamplesOk(p, Emitted(p, frames, qs, n))
    ensures DigitsOf(p, Emitted(p, frames, qs, n)) == Digits(Word(frames[n - d][p.S..]), p.M)
  {
    hide Levels, Row, FrameSigns, LevelAt, Digits, Word, Product, Pow2;
    EmittedOk(p, frames, qs, d, n);
    var x, ds := Emitted(p, frames, qs, n), Digits(Word(frames[n - d][p.S..]), p.M);
    forall j | 0 <= j < 6 ensures DigitsOf(p, x)[j] == ds[j] {
      SignedMagnitude(FrameSigns(p, frames, qs, n)[j], LevelAt(p, frames, n, j));
      LevelAligned(p, frames, d, n, j);
      LevelFound(p, j, ds[j]);
    }
  }

  /** And so the K modulus bits come back. */
  lemma ModulusBits(p: Params, frames: seq<seq<u1>>, qs: seq<u1>, d: nat, n: nat)
    requires Sound(p) && FramesOk(p, frames) && StatesOk(p, frames, qs) && LevelDelay(p, d) && d <= n < |frames|
    requires Pow2(p.K) <= Product(p.M)
    ensures SamplesOk(p, Emitted(p, frames, qs, n))
    ensures LowBitsOf(Number(DigitsOf(p, Emitted(p, frames, qs, n)), p.M), p.K) == frames[n - d][p.S..]
  {
    hide DigitsOf, Emitted, Digits, Number, Word, LowBitsOf, Product, Pow2;
    DigitsFound(p, frames, qs, d, n);
    FitsRecovers(frames[n - d][p.S..], p.M);
  }

  // ----- signs -----

  /** Signs survive wherever the level is not zero. */
  lemma SignsSurvive(p: Params, frames: seq<seq<u1>>, qs: seq<u1>, d: nat, n: nat)
    requires Sound(p) && FramesOk(p, frames) && StatesOk(p, frames, qs) && LevelDelay(p, d) && n < |frames|
    requires Signable(p) && (n < d ==> p.alaw)
    ensures SignsOf(Emitted(p, frames, qs, n)) == FrameSigns(p, frames, qs, n)
  {
    hide Levels, FrameSigns, LevelAt, Digits, Word, LevelDelay, Row;
    var x, g := Emitted(p, frames, qs, n), FrameSigns(p, frames, qs, n);
    forall j | 0 <= j < 6 ensures SignsOf(x)[j] == g[j] {
      SignedMagnitude(g[j], LevelAt(p, frames, n, j));
      LevelAligned(p, frames, d, n, j);
      if n < d {
        LevelsAscend(true, 0, 1);
      } else {
        var k, c := Digits(Word(frames[n - d][p.S..]), p.M)[j], p.codes[j];
        if k < p.M[j] - 1 { LevelsAscend(p.alaw, c[p.M[j] - 1], c[k]); }
      }
    }
  }

  /** The sign bytes of the data frame whose signs are emitted with frame n, and the chain they make. */
  lemma EmittedSigns(p: Params, frames: seq<seq<u1>>, qs: seq<u1>, d: nat, n: nat)
    requires FramesOk(p, frames) && StatesOk(p, frames, qs) && Delay(p, d) && n < |frames| && p.S <= 5
    ensures var nb := Subframes(p.S);
      var ts := Chain(SignsBefore(p, frames, qs, nb * n), StateBefore(qs, nb * n),
                      SignBytes(p.S, FrameAt(p, frames, n - d), LastAt(p, frames, n - d)),
                      FrameStates(p, frames, qs, n));
      && FrameSigns(p, frames, qs, n) == Signs(p.S, ts)
      && ts[nb - 1] == SignsBefore(p, frames, qs, nb * (n + 1))
      && FrameStates(p, frames, qs, n)[nb - 1] == StateBefore(qs, nb * (n + 1))
  {
    hide Chain, SignBytes, SignsBefore, ByteAt, LastBefore, Delay, NextSigns, FramesOk, Signs, FrameByte;
    var nb := Subframes(p.S);
    var pv := SignBytes(p.S, FrameAt(p, frames, n - d), LastAt(p, frames, n - d));
    forall k | 0 <= k < nb ensures pv[k] == FrameByte(p, frames, n, k) {
      AlignedByte(p, frames, d, n, k);
    }
    FrameChain(p, frames, qs, n, pv);
    FrameFits(nb, n, |frames|);
  }

  /** The sign bytes emitted with a frame are the chain of its sign bytes. */
  lemma FrameChain(p: Params, frames: seq<seq<u1>>, qs: seq<u1>, n: nat, pv: seq<bv8>)
    requires FramesOk(p, frames) && StatesOk(p, frames, qs) && n < |frames| && p.S <= 5 && |pv| == Subframes(p.S)
    requires forall k :: 0 <= k < |pv| ==> pv[k] == FrameByte(p, frames, n, k)
    ensures FrameBytes(p, frames, qs, n)
         == Chain(SignsBefore(p, frames, qs, |pv| * n), StateBefore(qs, |pv| * n), pv, FrameStates(p, frames, qs, n))
  {
    hide Chain, SignsBefore, ByteAt, FramesOk;
    FrameFits(|pv|, n, |frames|);
    EmittedChain(p, frames, qs, |pv| * n, pv, FrameBytes(p, frames, qs, n));
  }

  /** The sign part of one frame: data out, and still in step. */
  lemma SignBits(p: Params, frames: seq<seq<u1>>, qs: seq<u1>, d: nat, n: nat, st: SignState)
    requires FramesOk(p, frames) && StatesOk(p, frames, qs) && Delay(p, d) && n < |frames|
    requires Synced(p, frames, qs, d, n, st)
    ensures var r := DecodeSigns(p.S, st, FrameSigns(p, frames, qs, n));
      r.data == FrameAt(p, frames, n - d)[..p.S] && Synced(p, frames, qs, d, n + 1, r.state)
  {
    hide DecodeSigns, Chain, SignBytes, SignsBefore, ByteAt, LastBefore, LastSign, PlainSigns, InStep;
    if p.S == 6 {
      PlainFrame(p, frames, qs, n, st);
    } else {
      var nb, m := Subframes(p.S), n - d;
      EmittedSigns(p, frames, qs, d, n);
      FrameDecodes(p.S, FrameAt(p, frames, m), st, SignsBefore(p, frames, qs, nb * n), StateBefore(qs, nb * n),
                   LastAt(p, frames, m), FrameStates(p, frames, qs, n));
      LastAfter(p, frames, m);
    }
  }

  lemma PlainFrame(p: Params, frames: seq<seq<u1>>, qs: seq<u1>, n: nat, st: SignState)
    requires FramesOk(p, frames) && StatesOk(p, frames, qs) && n < |frames| && p.S == 6
    requires st.last == LastBefore(p, frames, n)
    ensures var r := DecodeSigns(6, st, FrameSigns(p, frames, qs, n));
      r.data == frames[n][..6] && r.state.last == LastBefore(p, frames, n + 1)
  {
    hide DecodeSigns, LastSign, PlainSigns;
    var f := frames[n];
    PlainSignsOnly(f, f[..6], st.last);
    Plain(f[..6], st);
  }

  lemma PlainSignsOnly(f: seq<u1>, g: seq<u1>, last: u1)
    requires |f| >= 6 && g == f[..6]
    ensures PlainSigns(f, last) == PlainSigns(g, last) && LastSign(6, f, last) == LastSign(6, g, last)
  {
  }

  // ----- whole runs -----

  /** Every frame emitted stays inside the decoder's tables. */
  ghost predicate Decodable(p: Params, frames: seq<seq<u1>>, qs: seq<u1>)
    requires Sound(p) && FramesOk(p, frames) && StatesOk(p, frames, qs)
  {
    forall n: nat {:trigger Emitted(p, frames, qs, n)} :: n < |frames| ==> SamplesOk(p, Emitted(p, frames, qs, n))
  }

  lemma DelayDecodable(p: Params, frames: seq<seq<u1>>, qs: seq<u1>, d: nat)
    requires Sound(p) && FramesOk(p, frames) && StatesOk(p, frames, qs) && Delay(p, d)
    ensures Decodable(p, frames, qs)
  {
    hide Emitted, SamplesOk, LevelDelay;
    DelayInCodes(p, d);
    forall n: nat {:trigger Emitted(p, frames, qs, n)} | n < |frames| ensures SamplesOk(p, Emitted(p, frames, qs, n)) {
      EmittedOk(p, frames, qs, d, n);
    }
  }

  /** The decoder's state after the first n frames emitted. */
  ghost function StateAfter(p: Params, frames: seq<seq<u1>>, qs: seq<u1>, n: nat): SignState
    requires Sound(p) && FramesOk(p, frames) && StatesOk(p, frames, qs) && Decodable(p, frames, qs) && n <= |frames|
  {
    hide Emitted, DecodeFrame, SamplesOk, FrameSigns, LevelAt;
    if n == 0 then SignState(0, 0, 0) else
      DecodeFrame(p, StateAfter(p, frames, qs, n - 1), Emitted(p, frames, qs, n - 1)).state
  }

  /** What the decoder returns for frame n of a run. */
  ghost function Returned(p: Params, frames: seq<seq<u1>>, qs: seq<u1>, n: nat): (r: seq<u1>)
    requires Sound(p) && FramesOk(p, frames) && StatesOk(p, frames, qs) && Decodable(p, frames, qs) && n < |frames|
    ensures |r| == p.S + p.K
  {
    hide Emitted, DecodeFrame, SamplesOk;
    DecodeFrame(p, StateAfter(p, frames, qs, n), Emitted(p, frames, qs, n)).data
  }

  /** One frame decoded in step. */
  lemma FrameInStep(p: Params, frames: seq<seq<u1>>, qs: seq<u1>, d: nat, n: nat, st: SignState)
    requires Sound(p) && Signable(p) && FramesOk(p, frames) && StatesOk(p, frames, qs) && Delay(p, d) && n < |frames|
    requires Synced(p, frames, qs, d, n, st) && (n < d ==> p.alaw) && Pow2(p.K) <= Product(p.M)
    ensures SamplesOk(p, Emitted(p, frames, qs, n))
    ensures var r := DecodeFrame(p, st, Emitted(p, frames, qs, n));
      Synced(p, frames, qs, d, n + 1, r.state) && (n >= d ==> r.data == frames[n - d])
  {
    hide Synced, FrameSigns, DecodeSigns, LowBitsOf, Number, Product, Pow2, Signable;
    DelayInCodes(p, d);
    EmittedOk(p, frames, qs, d, n);
    SignsSurvive(p, frames, qs, d, n);
    SignBits(p, frames, qs, d, n, st);
    if n >= d {
      ModulusBits(p, frames, qs, d, n);
      var f := frames[n - d];
      assert f == f[..p.S] + f[p.S..];
    }
  }

  lemma FreshInStep(p: Params, frames: seq<seq<u1>>, qs: seq<u1>, d: nat)
    requires FramesOk(p, frames) && StatesOk(p, frames, qs)
    ensures Synced(p, frames, qs, d, 0, SignState(0, 0, 0))
  {
    assert forall mask :: Low(0, mask) == 0;
  }

  /** The fresh decoder stays in step, whatever states the shaper chose. */
  lemma {:induction false} InStepThroughout(p: Params, frames: seq<seq<u1>>, qs: seq<u1>, d: nat, n: nat)
    requires Sound(p) && Signable(p) && FramesOk(p, frames) && StatesOk(p, frames, qs)
    requires Delay(p, d) && n <= |frames| && (p.alaw || d == 0) && Pow2(p.K) <= Product(p.M)
    ensures Decodable(p, frames, qs) && Synced(p, frames, qs, d, n, StateAfter(p, frames, qs, n))
  {
    hide Synced, DecodeFrame, Product, Pow2, Signable, Decodable;
    DelayDecodable(p, frames, qs, d);
    if n == 0 {
      FreshInStep(p, frames, qs, d);
    } else {
      InStepThroughout(p, frames, qs, d, n - 1);
      FrameInStep(p, frames, qs, d, n - 1, StateAfter(p, frames, qs, n - 1));
    }
  }

  /** Decoding frame n of any run returns all S + K data bits of frame n - d. */
  lemma DelayedData(p: Params, frames: seq<seq<u1>>, qs: seq<u1>, d: nat, n: nat)
    requires Sound(p) && Signable(p) && FramesOk(p, frames) && StatesOk(p, frames, qs)
    requires Delay(p, d) && d <= n < |frames| && (p.alaw || d == 0) && Pow2(p.K) <= Product(p.M)
    ensures Decodable(p, frames, qs) && Returned(p, frames, qs, n) == frames[n - d]
  {
    hide Synced, DecodeFrame, Product, Pow2, Signable, Decodable;
    InStepThroughout(p, frames, qs, d, n);
    FrameInStep(p, frames, qs, d, n, StateAfter(p, frames, qs, n));
  }

  // ----- settings that do not delay by whole frames -----

  /** The sign bits of frame n with the modulus bits of the frame ld before it. */
  function SplitFrame(p: Params, frames: seq<seq<u1>>, n: nat): (f: seq<u1>)
    requires FramesOk(p, frames) && p.S == 6 && p.ld <= n < |frames|
    ensures FrameOk(p, f)
  {
    frames[n][..6] + frames[n - p.ld][6..]
  }

  /** Without redundancy a look-ahead delays the modulus bits but not the sign bits. */
  lemma SplitDelay(p: Params, frames: seq<seq<u1>>, qs: seq<u1>, n: nat, st: SignState)
    requires Sound(p) && Signable(p) && FramesOk(p, frames) && StatesOk(p, frames, qs)
    requires p.S == 6 && p.ld <= n < |frames| && st.last == LastBefore(p, frames, n) && Pow2(p.K) <= Product(p.M)
    ensures SamplesOk(p, Emitted(p, frames, qs, n))
    ensures var r := DecodeFrame(p, st, Emitted(p, frames, qs, n));
      r.data == SplitFrame(p, frames, n) && r.state.last == LastBefore(p, frames, n + 1)
  {
    hide FrameSigns, DecodeSigns, LowBitsOf, Number, Product, Pow2, Signable, LastBefore;
    EmittedOk(p, frames, qs, p.ld, n);
    SignsSurvive(p, frames, qs, p.ld, n);
    PlainFrame(p, frames, qs, n, st);
    ModulusBits(p, frames, qs, p.ld, n);
  }

  /** In step but for the differential coder's last sign. */
  predicate Aligned(p: Params, frames: seq<seq<u1>>, qs: seq<u1>, n: nat, st: SignState)
    requires FramesOk(p, frames) && StatesOk(p, frames, qs) && n <= |frames| && p.S <= 5
  {
    InStep(p.S, st, SignsBefore(p, frames, qs, Subframes(p.S) * n), StateBefore(qs, Subframes(p.S) * n), st.last)
  }

  lemma EvenFrameByte(p: Params, frames: seq<seq<u1>>, n: nat, k: nat)
    requires 3 <= p.S <= 5 && FramesOk(p, frames) && n < |frames| && k < Subframes(p.S)
    ensures Even(FrameByte(p, frames, n, k))
  {
    hide SignBytes;
    var nb := Subframes(p.S);
    var s := nb * n + k - p.ld;
    FrameFits(nb, n, |frames|);
    if s >= 0 { EvenBytes(p.S, frames[s / nb], LastBefore(p, frames, s / nb)); }
  }

  /** With any look-ahead the decoder recovers the stream of sign bytes, ld shaping frames late. */
  lemma SignStream(p: Params, frames: seq<seq<u1>>, qs: seq<u1>, n: nat, st: SignState) returns (rs: seq<Recovered>)
    requires FramesOk(p, frames) && StatesOk(p, frames, qs) && n < |frames| && p.S <= 5 && Aligned(p, frames, qs, n, st)
    ensures |rs| == Subframes(p.S)
    ensures forall k {:trigger rs[k]} :: 0 <= k < |rs| ==>
      rs[k].pv == Low(FrameByte(p, frames, n, k), Mask(FrameSize(p.S)))
    ensures var r := DecodeSigns(p.S, st, FrameSigns(p, frames, qs, n));
      r.data == DataBits(p.S, rs, st.last) && Aligned(p, frames, qs, n + 1, r.state) && r.state.last == LastOf(p.S, rs)
  {
    hide Chain, SignsBefore, ByteAt, FrameByte, LastBefore, Low, Even, RecoverAll, DataBits, LastOf, Packed, Signs;
    hide Mask;
    var nb, mask := Subframes(p.S), Mask(FrameSize(p.S));
    var pv := seq(nb, k requires 0 <= k < nb => FrameByte(p, frames, n, k));
    var ts := FrameBytes(p, frames, qs, n);
    var t, q, states := SignsBefore(p, frames, qs, nb * n), StateBefore(qs, nb * n), FrameStates(p, frames, qs, n);
    FrameFits(nb, n, |frames|);
    FrameChain(p, frames, qs, n, pv);
    forall k | 0 <= k < nb ensures Even(pv[k]) { EvenFrameByte(p, frames, n, k); }
    OddMask(FrameSize(p.S));
    ChainRecovered(t, q, pv, states, mask);
    PackedSigns(p.S, ts);
    rs := RecoverAll(st.t, st.q, Masked(ts, mask), mask);
    assert Masked(ts, mask)[nb - 1] == Low(ts[nb - 1], mask);
  }

  lemma FreshAligned(p: Params, frames: seq<seq<u1>>, qs: seq<u1>)
    requires FramesOk(p, frames) && StatesOk(p, frames, qs) && p.S <= 5
    ensures Aligned(p, frames, qs, 0, SignState(0, 0, 0))
  {
    assert forall mask :: Low(0, mask) == 0;
  }

  // ----- noise and lost synchronisation -----

  /**
   Samples disturbed by less than half of the smallest gap between levels, signs and range kept;
   below the weakest level also by less than half of it.
   */
  ghost predicate Disturbed(p: Params, sent: seq<int>, received: seq<int>)
    requires Sound(p) && SamplesOk(p, sent)
  {
    && SamplesOk(p, received) && SignsOf(received) == SignsOf(sent)
    && forall j :: 0 <= j < 6 ==> NearLevel(Row(p, j), p.M[j], Magnitude(sent[j]), Magnitude(received[j]))
  }

  ghost predicate NearLevel(tab: seq<nat>, m: nat, sent: nat, received: nat)
    requires |tab| == CODES && 1 <= m <= CODES
  {
    && (forall j :: 0 <= j < m - 1 ==> 2 * Distance(sent, received) + tab[j + 1] < tab[j])
    && (received < tab[m - 1] ==> 2 * Distance(sent, received) < tab[m - 1])
  }

  /** Such noise changes nothing. */
  lemma NoiseIgnored(p: Params, frames: seq<seq<u1>>, qs: seq<u1>, d: nat, n: nat, st: SignState, received: seq<int>)
    requires Sound(p) && FramesOk(p, frames) && StatesOk(p, frames, qs) && LevelDelay(p, d) && d <= n < |frames|
    requires SamplesOk(p, Emitted(p, frames, qs, n)) && Disturbed(p, Emitted(p, frames, qs, n), received)
    ensures DecodeFrame(p, st, received) == DecodeFrame(p, st, Emitted(p, frames, qs, n))
  {
    hide Levels, Row, FrameSigns, LevelAt, DecodeSigns, Number, LowBitsOf, Digits, Word;
    var sent := Emitted(p, frames, qs, n);
    forall j | 0 <= j < 6 ensures DigitsOf(p, received)[j] == DigitsOf(p, sent)[j] {
      var k := Digits(Word(frames[n - d][p.S..]), p.M)[j];
      SignedMagnitude(FrameSigns(p, frames, qs, n)[j], LevelAt(p, frames, n, j));
      LevelAligned(p, frames, d, n, j);
      LevelFound(p, j, k);
      RowIsTable(p, j);
      SliceRobust(Row(p, j), p.M[j], k, Magnitude(received[j]));
    }
    assert DigitsOf(p, received) == DigitsOf(p, sent);
  }

  /** What every decoder state satisfies, whatever samples came before. */
  predicate Reachable(p: Params, st: SignState) {
    p.S == 6 || st.q == Parity(st.t)
  }

  lemma StaysReachable(p: Params, st: SignState, samples: seq<int>)
    requires Sound(p) && SamplesOk(p, samples) && Reachable(p, st)
    ensures Reachable(p, DecodeFrame(p, st, samples).state)
  {
    hide DecodeSigns, LowBitsOf, Number, DigitsOf, Parity;
    if p.S <= 5 { StateIsParity(p.S, st, SignsOf(samples)); }
  }

  /** The sign bytes emitted with frame n are even, and their chain leads to the next frame. */
  lemma EmittedEven(p: Params, frames: seq<seq<u1>>, qs: seq<u1>, n: nat) returns (pv: seq<bv8>)
    requires FramesOk(p, frames) && StatesOk(p, frames, qs) && n < |frames| && p.S <= 5
    ensures |pv| == Subframes(p.S) && forall k :: 0 <= k < |pv| ==> Even(pv[k])
    ensures var nb := Subframes(p.S);
      var ts := Chain(SignsBefore(p, frames, qs, nb * n), StateBefore(qs, nb * n), pv, FrameStates(p, frames, qs, n));
      && FrameSigns(p, frames, qs, n) == Signs(p.S, ts)
      && ts[nb - 1] == SignsBefore(p, frames, qs, nb * (n + 1))
      && FrameStates(p, frames, qs, n)[nb - 1] == StateBefore(qs, nb * (n + 1))
  {
    hide Chain, SignsBefore, FrameByte, FramesOk, Even, Signs;
    var nb := Subframes(p.S);
    pv := seq(nb, k requires 0 <= k < nb => FrameByte(p, frames, n, k));
    forall k | 0 <= k < nb ensures Even(pv[k]) { EvenFrameByte(p, frames, n, k); }
    FrameChain(p, frames, qs, n, pv);
    FrameFits(nb, n, |frames|);
  }

  /** The shaper's state after a frame is the parity of its sign byte, if it was before. */
  lemma ParityNext(p: Params, frames: seq<seq<u1>>, qs: seq<u1>, n: nat)
    requires FramesOk(p, frames) && StatesOk(p, frames, qs) && n < |frames| && p.S <= 5
    requires StateBefore(qs, Subframes(p.S) * n) == Parity(SignsBefore(p, frames, qs, Subframes(p.S) * n))
    ensures StateBefore(qs, Subframes(p.S) * (n + 1)) == Parity(SignsBefore(p, frames, qs, Subframes(p.S) * (n + 1)))
  {
    hide Chain, Even, Parity, FrameSigns, SignsBefore, FramesOk, Signs, StateBefore, FrameStates;
    var nb := Subframes(p.S);
    FrameFits(nb, n, |frames|);
    var pv := EmittedEven(p, frames, qs, n);
    var t, q, states := SignsBefore(p, frames, qs, nb * n), StateBefore(qs, nb * n), FrameStates(p, frames, qs, n);
    ChainParity(t, q, pv, states);
    assert states[nb - 1] == Parity(Chain(t, q, pv, states)[nb - 1]);
  }

  /** The shaper's state is the parity of its sign byte. */
  lemma {:induction false} ShaperParity(p: Params, frames: seq<seq<u1>>, qs: seq<u1>, n: nat)
    requires FramesOk(p, frames) && StatesOk(p, frames, qs) && n <= |frames| && p.S <= 5
    ensures StateBefore(qs, Subframes(p.S) * n) == Parity(SignsBefore(p, frames, qs, Subframes(p.S) * n))
  {
    hide Parity, SignsBefore, FramesOk;
    if n == 0 {
      ParityOfZero();
      NothingBefore(p, frames, qs);
    } else {
      ShaperParity(p, frames, qs, n - 1);
      ParityNext(p, frames, qs, n - 1);
    }
  }

  lemma NothingBefore(p: Params, frames: seq<seq<u1>>, qs: seq<u1>)
    requires FramesOk(p, frames) && StatesOk(p, frames, qs) && p.S <= 5
    ensures SignsBefore(p, frames, qs, 0) == 0 && StateBefore(qs, 0) == 0
  {
  }

  lemma ParityOfZero()
    ensures Parity(0) == 0
  {
  }

  /** From any state and with any look-ahead, one frame received whole realigns the decoder. */
  lemma FirstGoodFrame(p: Params, frames: seq<seq<u1>>, qs: seq<u1>, n: nat, st: SignState)
    requires FramesOk(p, frames) && StatesOk(p, frames, qs) && n < |frames| && p.S <= 5
    requires Reachable(p, st)
    ensures Aligned(p, frames, qs, n + 1, DecodeSigns(p.S, st, FrameSigns(p, frames, qs, n)).state)
  {
    hide DecodeSigns, Chain, SignsBefore, InStep, Parity, Even, FrameSigns, Signs, FramesOk;
    var nb := Subframes(p.S);
    ShaperParity(p, frames, qs, n);
    var pv := EmittedEven(p, frames, qs, n);
    ChainRestores(p.S, st, SignsBefore(p, frames, qs, nb * n), StateBefore(qs, nb * n), pv,
                  FrameStates(p, frames, qs, n));
  }

  lemma SecondGoodFrame(p: Params, frames: seq<seq<u1>>, qs: seq<u1>, d: nat, n: nat, st: SignState)
    requires FramesOk(p, frames) && StatesOk(p, frames, qs) && Delay(p, d) && n < |frames| && p.S <= 5
    requires Aligned(p, frames, qs, n, st)
    ensures var r := DecodeSigns(p.S, st, FrameSigns(p, frames, qs, n));
      r.data[1..] == FrameAt(p, frames, n - d)[1..p.S] && Synced(p, frames, qs, d, n + 1, r.state)
  {
    hide DecodeSigns, Chain, SignBytes, SignsBefore, ByteAt, LastBefore, LastSign, InStep;
    var nb, m := Subframes(p.S), n - d;
    EmittedSigns(p, frames, qs, d, n);
    FrameRestoresLast(p.S, FrameAt(p, frames, m), st, SignsBefore(p, frames, qs, nb * n), StateBefore(qs, nb * n),
                      LastAt(p, frames, m), FrameStates(p, frames, qs, n));
    LastAfter(p, frames, m);
  }

  /** Without redundancy one frame is enough. */
  lemma PlainRestored(p: Params, frames: seq<seq<u1>>, qs: seq<u1>, n: nat, st: SignState)
    requires FramesOk(p, frames) && StatesOk(p, frames, qs) && n < |frames| && p.S == 6
    ensures DecodeSigns(6, st, FrameSigns(p, frames, qs, n)).state.last == LastBefore(p, frames, n + 1)
  {
    hide LastSign, PlainSigns;
    PlainFrame(p, frames, qs, n, SignState(st.t, st.q, LastBefore(p, frames, n)));
  }

  /** Whatever the decoder received before, two frames of data received whole put it back in step. */
  lemma Resynchronised(p: Params, frames: seq<seq<u1>>, qs: seq<u1>, d: nat, n: nat, st: SignState)
    requires Sound(p) && Signable(p) && FramesOk(p, frames) && StatesOk(p, frames, qs) && Delay(p, d)
    requires d <= n && n + 2 <= |frames| && Reachable(p, st)
    ensures SamplesOk(p, Emitted(p, frames, qs, n)) && SamplesOk(p, Emitted(p, frames, qs, n + 1))
    ensures var first := DecodeFrame(p, st, Emitted(p, frames, qs, n)).state;
      Synced(p, frames, qs, d, n + 2, DecodeFrame(p, first, Emitted(p, frames, qs, n + 1)).state)
  {
    hide DecodeSigns, FrameSigns, Signable, LowBitsOf, Number, DigitsOf, Aligned;
    DelayInCodes(p, d);
    EmittedOk(p, frames, qs, d, n);
    EmittedOk(p, frames, qs, d, n + 1);
    SignsSurvive(p, frames, qs, d, n);
    SignsSurvive(p, frames, qs, d, n + 1);
    var first := DecodeFrame(p, st, Emitted(p, frames, qs, n)).state;
    if p.S == 6 {
      PlainRestored(p, frames, qs, n + 1, first);
    } else {
      FirstGoodFrame(p, frames, qs, n, st);
      SecondGoodFrame(p, frames, qs, d, n + 1, first);
    }
  }

  lemma {:induction false} ReachableThroughout(p: Params, frames: seq<seq<u1>>, qs: seq<u1>, n: nat)
    requires Sound(p) && FramesOk(p, frames) && StatesOk(p, frames, qs) && Decodable(p, frames, qs) && n <= |frames|
    ensures Reachable(p, StateAfter(p, frames, qs, n))
  {
    hide DecodeFrame, Emitted, SamplesOk, Parity;
    if n == 0 {
      ParityOfZero();
    } else {
      ReachableThroughout(p, frames, qs, n - 1);
      StaysReachable(p, StateAfter(p, frames, qs, n - 1), Emitted(p, frames, qs, n - 1));
    }
  }

  /** Even if the idle frames lose their signs, as with the u-law, the decoder is in step after two frames of data. */
  lemma {:induction false} InStepAfterTwo(p: Params, frames: seq<seq<u1>>, qs: seq<u1>, d: nat, n: nat)
    requires Sound(p) && Signable(p) && FramesOk(p, frames) && StatesOk(p, frames, qs) && Delay(p, d)
    requires d + 2 <= n <= |frames| && Pow2(p.K) <= Product(p.M)
    ensures Decodable(p, frames, qs) && Synced(p, frames, qs, d, n, StateAfter(p, frames, qs, n))
  {
    hide Synced, DecodeFrame, Product, Pow2, Signable, Emitted, SamplesOk;
    DelayDecodable(p, frames, qs, d);
    if n == d + 2 {
      ReachableThroughout(p, frames, qs, d);
      Resynchronised(p, frames, qs, d, d, StateAfter(p, frames, qs, d));
    } else {
      InStepAfterTwo(p, frames, qs, d, n - 1);
      FrameInStep(p, frames, qs, d, n - 1, StateAfter(p, frames, qs, n - 1));
    }
  }

  /** With either law: from the third frame of data on, frame n returns all the data of frame n - d. */
  lemma DataAfterTwo(p: Params, frames: seq<seq<u1>>, qs: seq<u1>, d: nat, n: nat)
    requires Sound(p) && Signable(p) && FramesOk(p, frames) && StatesOk(p, frames, qs) && Delay(p, d)
    requires d + 2 <= n < |frames| && Pow2(p.K) <= Product(p.M)
    ensures Decodable(p, frames, qs) && Returned(p, frames, qs, n) == frames[n - d]
  {
    hide Synced, DecodeFrame, Product, Pow2, Signable, Decodable;
    InStepAfterTwo(p, frames, qs, d, n);
    FrameInStep(p, frames, qs, d, n, StateAfter(p, frames, qs, n));
  }
}
