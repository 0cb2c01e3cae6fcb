/** Which settings delay by whole mapping frames. */
module V90WholeDelay {
  import opened Bits
  import opened V90Tables
  import opened V90Radix
  import opened V90Signs
  import opened V90Stream
  import opened V90Delay

  /** A setting with which every level of the data can carry a sign: always so with the A-law. */
  ghost predicate Setting(p: Params): (r: bool)
    ensures r ==> Sound(p)
  {
    Sound(p) && Signable(p)
  }

  lemma ALawSignable(p: Params)
    requires Sound(p) && p.alaw
    ensures Signable(p)
  {
    hide Levels;
    LevelsAscend(true, 0, 1);
    forall j | 0 <= j < 6 ensures Levels(true)[p.codes[j][p.M[j] - 1]] > 0 {
      var c := p.codes[j][p.M[j] - 1];
      if c > 0 { LevelsAscend(true, 0, c); }
    }
  }

  /** The constellations are large enough for K bits. */
  predicate Fits(p: Params) {
    Pow2(p.K) <= Product(p.M)
  }

  /** Every run stays inside the decoder's tables, and from frame `first` on comes back d frames late. */
  ghost predicate DelaysBy(p: Params, d: nat, first: nat)
    requires Sound(p)
  {
    && (forall frames: seq<seq<u1>>, qs: seq<u1> {:trigger Decodable(p, frames, qs)} ::
          FramesOk(p, frames) && StatesOk(p, frames, qs) ==> Decodable(p, frames, qs))
    && (forall frames: seq<seq<u1>>, qs: seq<u1>, n: nat {:trigger Returned(p, frames, qs, n)} ::
          FramesOk(p, frames) && StatesOk(p, frames, qs) && first <= n < |frames| && d <= n
          ==> Returned(p, frames, qs, n) == frames[n - d])
  }

  // ----- signs for every look-ahead -----

  /** The frame has its levels from data, or idle levels that carry signs. */
  predicate Audible(p: Params, n: nat) {
    p.alaw || p.ld <= n
  }

  /** A level emitted then, at any position, is not zero. */
  lemma EmittedLevel(p: Params, frames: seq<seq<u1>>, n: nat, j: nat)
    requires Setting(p) && FramesOk(p, frames) && n < |frames| && j < 6 && Audible(p, n)
    ensures LevelAt(p, frames, n, j) > 0
  {
    hide Levels, Row, Digits, Word, Product, Pow2;
    var pos := 6 * n - FrameSize(p.S) * p.ld + j;
    if pos < 0 {
      MulLe(FrameSize(p.S), 6, p.ld);
      assert p.alaw;
      LevelsAscend(true, 0, 1);
    } else {
      var i := pos % 6;
      var k, c := Digits(Word(frames[pos / 6][p.S..]), p.M)[i], p.codes[i];
      if k < p.M[i] - 1 { LevelsAscend(p.alaw, c[p.M[i] - 1], c[k]); }
    }
  }

  lemma EmittedWhole(p: Params, frames: seq<seq<u1>>, qs: seq<u1>, n: nat)
    requires Setting(p) && FramesOk(p, frames) && StatesOk(p, frames, qs) && n < |frames| && Audible(p, n)
    ensures SignsOf(Emitted(p, frames, qs, n)) == FrameSigns(p, frames, qs, n)
  {
    hide Levels, Row, FrameSigns, LevelAt, Setting;
    var x, g := Emitted(p, frames, qs, n), FrameSigns(p, frames, qs, n);
    forall j | 0 <= j < 6 ensures SignsOf(x)[j] == g[j] {
      EmittedLevel(p, frames, n, j);
      SignedMagnitude(g[j], LevelAt(p, frames, n, j));
    }
  }

  /** The decoder's own run: the sign part of its state and of what it returns. */
  lemma RunSigns(p: Params, frames: seq<seq<u1>>, qs: seq<u1>, n: nat)
    requires Setting(p) && FramesOk(p, frames) && StatesOk(p, frames, qs) && n < |frames| && Audible(p, n)
    requires Decodable(p, frames, qs)
    ensures var r := DecodeSigns(p.S, StateAfter(p, frames, qs, n), FrameSigns(p, frames, qs, n));
      r.state == StateAfter(p, frames, qs, n + 1) && r.data == Returned(p, frames, qs, n)[..p.S]
  {
    hide DecodeSigns, Emitted, FrameSigns, LowBitsOf, Number, Setting, SamplesOk, Audible;
    EmittedWhole(p, frames, qs, n);
  }

  // ----- three and four sign bits -----

  /** From the first frame whose signs arrive, the decoder is in step but for the last sign. */
  lemma {:induction false} AlignedAfter(p: Params, frames: seq<seq<u1>>, qs: seq<u1>, n: nat)
    requires Setting(p) && FramesOk(p, frames) && StatesOk(p, frames, qs) && Decodable(p, frames, qs)
    requires p.ld < n <= |frames| && p.S <= 5
    ensures Aligned(p, frames, qs, n, StateAfter(p, frames, qs, n))
  {
    hide DecodeSigns, FrameSigns, Decodable, Setting, Aligned, Returned, FrameByte, DecodeFrame, Emitted, CodesOk;
    hide Reachable, StateAfter;
    RunSigns(p, frames, qs, n - 1);
    if n == p.ld + 1 {
      ReachableThroughout(p, frames, qs, n - 1);
      FirstGoodFrame(p, frames, qs, n - 1, StateAfter(p, frames, qs, n - 1));
    } else {
      AlignedAfter(p, frames, qs, n - 1);
      var rs := SignStream(p, frames, qs, n - 1, StateAfter(p, frames, qs, n - 1));
    }
  }

  /** The sign bits returned for frame n are those of the shaping frames ld before it. */
  lemma ReturnedSigns(p: Params, frames: seq<seq<u1>>, qs: seq<u1>, n: nat) returns (rs: seq<Recovered>)
    requires Setting(p) && FramesOk(p, frames) && StatesOk(p, frames, qs) && Decodable(p, frames, qs)
    requires p.ld < n < |frames| && p.S <= 5
    ensures |rs| == Subframes(p.S)
    ensures forall k {:trigger rs[k]} :: 0 <= k < |rs| ==>
      rs[k].pv == Low(FrameByte(p, frames, n, k), Mask(FrameSize(p.S)))
    ensures Returned(p, frames, qs, n)[..p.S] == DataBits(p.S, rs, StateAfter(p, frames, qs, n).last)
    ensures StateAfter(p, frames, qs, n + 1).last == LastOf(p.S, rs)
  {
    hide DecodeSigns, FrameSigns, Decodable, Setting, Aligned, Low, FrameByte, Mask, DataBits, LastOf, StateAfter;
    AlignedAfter(p, frames, qs, n);
    RunSigns(p, frames, qs, n);
    rs := SignStream(p, frames, qs, n, StateAfter(p, frames, qs, n));
  }

  /** The one sign bit set in a marked frame. */
  function MarkedBit(p: Params): nat {
    if p.S == 4 then 1 else 0
  }

  /** A run in which frame `at` is the only one with a bit set. */
  function Marked(p: Params, at: nat, n: nat): (frames: seq<seq<u1>>)
    ensures |frames| == n + 1 && FramesOk(p, frames)
    ensures forall m, i :: 0 <= m <= n && 0 <= i < p.S + p.K ==>
      frames[m][i] == if m == at && (i == MarkedBit(p) || (p.S == 6 && i == 6)) then 1 else 0
  {
    seq(n + 1, m => seq(p.S + p.K, i => if m == at && (i == MarkedBit(p) || (p.S == 6 && i == 6)) then 1 else 0))
  }

  lemma {:induction false} NoSignBefore(p: Params, at: nat, n: nat, m: nat)
    requires 3 <= p.S <= 5 && m <= at <= n
    ensures LastBefore(p, Marked(p, at, n), m) == 0
  {
    if m != 0 {
      NoSignBefore(p, at, n, m - 1);
      IdleFrame(p.S, Marked(p, at, n)[m - 1]);
    }
  }

  /** Before the marked frame all sign bytes are zero. */
  lemma ZeroBytes(p: Params, at: nat, n: nat, s: int)
    requires 3 <= p.S <= 5 && at <= n && s < Subframes(p.S) * at
    ensures s < Subframes(p.S) * (n + 1) && ByteAt(p, Marked(p, at, n), s) == 0
  {
    hide SignBytes;
    FrameFits(Subframes(p.S), n, n + 1);
    MulLe(at, n, Subframes(p.S));
    if s >= 0 {
      var m := s / Subframes(p.S);
      NoSignBefore(p, at, n, m);
      IdleFrame(p.S, Marked(p, at, n)[m]);
    }
  }

  /** The marked frame's own sign bytes. */
  lemma MarkedBytes(p: Params, at: nat, n: nat)
    requires 3 <= p.S <= 4 && at <= n && Subframes(p.S) * at + 1 < Subframes(p.S) * (n + 1)
    ensures p.S == 3 ==> ByteAt(p, Marked(p, at, n), 3 * at) == 2 && ByteAt(p, Marked(p, at, n), 3 * at + 1) == 2
    ensures p.S == 4 ==> ByteAt(p, Marked(p, at, n), 2 * at) == 4
  {
    hide LastBefore;
    NoSignBefore(p, at, n, at);
    var f := Marked(p, at, n)[at];
    if p.S == 3 {
      DivModUnique(3 * at, 3, at, 0);
      DivModUnique(3 * at + 1, 3, at, 1);
    } else {
      DivModUnique(2 * at, 2, at, 0);
    }
  }

  lemma SplitBits3(rs: seq<Recovered>, ld: nat)
    requires |rs| == 3 && 1 <= ld <= 2 && rs[0].pv == Low(0, 3)
    requires rs[1].pv == Low(if ld == 1 then 2 else 0, 3) && rs[2].pv == Low(2, 3)
    ensures DataBits(3, rs, 0) == if ld == 1 then [0, 1, 0] else [0, 0, 1]
  {
  }

  lemma SplitBits4(rs: seq<Recovered>)
    requires |rs| == 2 && rs[0].pv == Low(0, 7) && rs[1].pv == Low(4, 7)
    ensures DataBits(4, rs, 0) == [0, 0, 0, 1]
  {
  }

  lemma IdleLast(S: nat, rs: seq<Recovered>)
    requires 3 <= S <= 5 && |rs| == Subframes(S) && rs[|rs| - 1].pv == Low(0, Mask(FrameSize(S)))
    ensures LastOf(S, rs) == 0
  {
    assert forall mask :: Low(0, mask) == 0;
  }

  /** The place where the marked bit shows up. */
  function SplitPlace(p: Params): nat
    requires 3 <= p.S <= 4
  {
    if p.S == 4 then 3 else p.ld
  }

  /** The frame during which the marked bit comes back. */
  function SplitFrameNumber(p: Params, at: nat): (n: nat)
    requires 3 <= p.S <= 4 && p.ld <= 3 && p.ld % Subframes(p.S) != 0
    ensures n >= at && Subframes(p.S) * n - p.ld == Subframes(p.S) * at - p.ld % Subframes(p.S)
  {
    at + p.ld / Subframes(p.S)
  }

  /** The sign bytes behind the signs of that frame, and the one before it. */
  lemma SplitBytes(p: Params, at: nat)
    requires 3 <= p.S <= 4 && p.ld <= 3 && p.ld % Subframes(p.S) != 0
    ensures var n, nb, r := SplitFrameNumber(p, at), Subframes(p.S), p.ld % Subframes(p.S);
      var frames := Marked(p, at, n);
      && (n > 0 ==> FrameByte(p, frames, n - 1, nb - 1) == 0)
      && FrameByte(p, frames, n, 0) == 0
      && (p.S == 3 ==> FrameByte(p, frames, n, 1) == (if r == 1 then 2 else 0) && FrameByte(p, frames, n, 2) == 2)
      && (p.S == 4 ==> FrameByte(p, frames, n, 1) == 4)
  {
    hide ByteAt, Marked;
    var n, nb, r := SplitFrameNumber(p, at), Subframes(p.S), p.ld % Subframes(p.S);
    MulLe(at, n, nb);
    if n > 0 { ZeroBytes(p, at, n, nb * at - r - 1); }
    ZeroBytes(p, at, n, nb * at - r);
    if p.S == 3 && r == 2 { ZeroBytes(p, at, n, nb * at - 1); }
    MarkedBytes(p, at, n);
  }

  /** The sign byte before frame n is zero: so is the decoder's last sign. */
  lemma ZeroBefore(p: Params, frames: seq<seq<u1>>, qs: seq<u1>, n: nat)
    requires Setting(p) && FramesOk(p, frames) && StatesOk(p, frames, qs) && Decodable(p, frames, qs)
    requires p.ld + 1 < n <= |frames| && p.S <= 5 && FrameByte(p, frames, n - 1, Subframes(p.S) - 1) == 0
    ensures StateAfter(p, frames, qs, n).last == 0
  {
    hide Decodable, Setting, Low, DataBits, LastOf, FrameByte, Mask, Returned, CodesOk, StateAfter;
    var nb := Subframes(p.S);
    var rs := ReturnedSigns(p, frames, qs, n - 1);
    assert rs[nb - 1].pv == Low(FrameByte(p, frames, n - 1, nb - 1), Mask(FrameSize(p.S)));
    IdleLast(p.S, rs);
  }

  /** The marked bit comes back at another place of a frame. */
  lemma MarkedSplit(p: Params, at: nat, qs: seq<u1>)
    requires Setting(p) && 3 <= p.S <= 4 && p.ld % Subframes(p.S) != 0 && p.ld + 1 < at
    requires StatesOk(p, Marked(p, at, SplitFrameNumber(p, at)), qs)
    requires Decodable(p, Marked(p, at, SplitFrameNumber(p, at)), qs)
    ensures var n, frames := SplitFrameNumber(p, at), Marked(p, at, SplitFrameNumber(p, at));
      SplitPlace(p) < p.S && SplitPlace(p) != MarkedBit(p)
      && Returned(p, frames, qs, n)[SplitPlace(p)] == 1
  {
    hide Decodable, Setting, Low, DataBits, LastOf, FrameByte, Returned, StateAfter, SplitFrameNumber, Marked, CodesOk;
    var n, nb := SplitFrameNumber(p, at), Subframes(p.S);
    var frames := Marked(p, at, n);
    SplitBytes(p, at);
    ZeroBefore(p, frames, qs, n);
    var rs := ReturnedSigns(p, frames, qs, n);
    assert rs[0].pv == Low(FrameByte(p, frames, n, 0), Mask(FrameSize(p.S)));
    assert rs[1].pv == Low(FrameByte(p, frames, n, 1), Mask(FrameSize(p.S)));
    if p.S == 3 {
      assert rs[2].pv == Low(FrameByte(p, frames, n, 2), Mask(FrameSize(p.S)));
      SplitBits3(rs, p.ld);
    } else {
      SplitBits4(rs);
    }
    assert Returned(p, frames, qs, n)[..p.S][SplitPlace(p)] == Returned(p, frames, qs, n)[SplitPlace(p)];
  }

  // ----- six sign bits -----

  /** Without redundancy the decoder's last sign is right after any frame whose signs arrive. */
  lemma {:induction false} PlainThroughout(p: Params, frames: seq<seq<u1>>, qs: seq<u1>, n: nat)
    requires Setting(p) && FramesOk(p, frames) && StatesOk(p, frames, qs) && Decodable(p, frames, qs)
    requires n <= |frames| && p.S == 6 && (p.alaw || p.ld < n)
    ensures StateAfter(p, frames, qs, n).last == LastBefore(p, frames, n)
  {
    hide DecodeSigns, FrameSigns, Decodable, Setting, Returned, LastSign, DecodeFrame, Emitted, CodesOk, Sound;
    if n > 0 {
      RunSigns(p, frames, qs, n - 1);
      PlainRestored(p, frames, qs, n - 1, StateAfter(p, frames, qs, n - 1));
    }
  }

  /** What is returned then: this frame's sign bits and an earlier frame's modulus bits. */
  lemma ReturnedSplit(p: Params, frames: seq<seq<u1>>, qs: seq<u1>, n: nat)
    requires Setting(p) && FramesOk(p, frames) && StatesOk(p, frames, qs) && Decodable(p, frames, qs)
    requires p.ld < n < |frames| && p.S == 6 && Fits(p)
    ensures Returned(p, frames, qs, n) == SplitFrame(p, frames, n)
  {
    hide DecodeFrame, Emitted, Decodable, LastBefore, SplitFrame;
    PlainThroughout(p, frames, qs, n);
    SplitDelay(p, frames, qs, n, StateAfter(p, frames, qs, n));
  }

  // ----- the condition -----

  /** The settings that delay by whole frames. */
  predicate Whole(p: Params)
    requires 3 <= p.S <= 6
  {
    if p.S == 6 then p.ld == 0 || p.K == 0 else p.ld % Subframes(p.S) == 0
  }

  function SomeStates(p: Params, n: nat): (qs: seq<u1>)
    requires 3 <= p.S <= 6
  {
    if p.S == 6 then [] else seq(Subframes(p.S) * n, _ => 0)
  }

  lemma NotWhole(p: Params, d: nat, first: nat)
    requires Setting(p) && !Whole(p) && (p.S == 6 ==> Fits(p))
    ensures !DelaysBy(p, d, first)
  {
    hide Decodable, Setting, Returned;
    var at := first + d + p.ld + 2;
    if p.S == 6 {
      var n := if d > 0 then at else at + p.ld;
      var frames := Marked(p, at, n);
      var qs := SomeStates(p, n + 1);
      if Decodable(p, frames, qs) {
        ReturnedSplit(p, frames, qs, n);
        if d > 0 {
          assert SplitFrame(p, frames, n)[0] == 1 && frames[n - d][0] == 0;
        } else {
          assert SplitFrame(p, frames, n)[6] == 1 && frames[n][6] == 0;
        }
      }
    } else {
      var n := SplitFrameNumber(p, at);
      var frames := Marked(p, at, n);
      var qs := SomeStates(p, n + 1);
      if Decodable(p, frames, qs) {
        MarkedSplit(p, at, qs);
        assert frames[n - d][SplitPlace(p)] == 0;
      }
    }
  }

  /** With no modulus bits, plain signs are not delayed at all. */
  lemma OnlySigns(p: Params, frames: seq<seq<u1>>, qs: seq<u1>, n: nat)
    requires Setting(p) && FramesOk(p, frames) && StatesOk(p, frames, qs) && Decodable(p, frames, qs)
    requires n < |frames| && p.S == 6 && p.K == 0 && (p.alaw || p.ld < n)
    ensures Returned(p, frames, qs, n) == frames[n]
  {
    hide DecodeSigns, FrameSigns, Decodable, Setting, Returned;
    PlainThroughout(p, frames, qs, n);
    RunSigns(p, frames, qs, n);
    PlainFrame(p, frames, qs, n, StateAfter(p, frames, qs, n));
    assert frames[n][..6] == frames[n];
    assert Returned(p, frames, qs, n)[..6] == Returned(p, frames, qs, n);
  }

  /** The delay of a setting that has one. */
  function WholeFrames(p: Params): nat
    requires 3 <= p.S <= 6
  {
    if p.S == 6 then 0 else p.ld / Subframes(p.S)
  }

  /** The first frame that is sure to come back: with the u-law, signs are lost before data arrive. */
  function FirstWhole(p: Params): nat
    requires 3 <= p.S <= 6
  {
    if p.alaw then 0 else if p.S == 6 then p.ld + 1 else WholeFrames(p) + 2
  }

  /** The whole frames by which the levels are late, if they are. */
  function LevelFrames(p: Params): nat
    requires 3 <= p.S <= 6
  {
    if p.S == 6 then p.ld else WholeFrames(p)
  }

  lemma WholeIsDecodable(p: Params, frames: seq<seq<u1>>, qs: seq<u1>)
    requires Setting(p) && Whole(p) && FramesOk(p, frames) && StatesOk(p, frames, qs)
    ensures Decodable(p, frames, qs)
  {
    hide Emitted, SamplesOk, Setting;
    var d := LevelFrames(p);
    forall n: nat {:trigger Emitted(p, frames, qs, n)} | n < |frames| ensures SamplesOk(p, Emitted(p, frames, qs, n)) {
      EmittedOk(p, frames, qs, d, n);
    }
  }

  lemma WholeReturned(p: Params, frames: seq<seq<u1>>, qs: seq<u1>, n: nat)
    requires Setting(p) && Whole(p) && FramesOk(p, frames) && StatesOk(p, frames, qs) && Decodable(p, frames, qs)
    requires FirstWhole(p) <= n < |frames| && WholeFrames(p) <= n && Fits(p)
    ensures Returned(p, frames, qs, n) == frames[n - WholeFrames(p)]
  {
    hide Decodable, Returned, Signable, Product, Pow2, CodesOk;
    var d := WholeFrames(p);
    if p.S == 6 && p.ld > 0 {
      OnlySigns(p, frames, qs, n);
    } else if p.alaw {
      DelayedData(p, frames, qs, d, n);
    } else if p.S == 6 {
      DelayedData(p, frames, qs, 0, n);
    } else {
      DataAfterTwo(p, frames, qs, d, n);
    }
  }

  lemma IsWhole(p: Params)
    requires Setting(p) && Whole(p) && Fits(p)
    ensures DelaysBy(p, WholeFrames(p), FirstWhole(p))
  {
    hide Decodable, Setting, Returned;
    forall frames: seq<seq<u1>>, qs: seq<u1> {:trigger Decodable(p, frames, qs)}
      | FramesOk(p, frames) && StatesOk(p, frames, qs)
      ensures Decodable(p, frames, qs)
    {
      WholeIsDecodable(p, frames, qs);
    }
    forall frames: seq<seq<u1>>, qs: seq<u1>, n: nat {:trigger Returned(p, frames, qs, n)}
      | FramesOk(p, frames) && StatesOk(p, frames, qs) && FirstWhole(p) <= n < |frames| && WholeFrames(p) <= n
      ensures Returned(p, frames, qs, n) == frames[n - WholeFrames(p)]
    {
      WholeReturned(p, frames, qs, n);
    }
  }

  /** Frames with nothing but ones. */
  function AllOnes(p: Params, n: nat): (frames: seq<seq<u1>>)
    ensures |frames| == n && FramesOk(p, frames)
    ensures forall m :: 0 <= m < n ==> frames[m][p.S..] == LowBitsOf(Pow2(p.K) - 1, p.K)
  {
    seq(n, _ => seq(p.S, _ => 1) + LowBitsOf(Pow2(p.K) - 1, p.K))
  }

  /** If the constellations are too small, the largest word of K bits never comes back. */
  lemma TooSmall(p: Params, d: nat, first: nat)
    requires Sound(p) && !Fits(p) && LevelDelay(p, LevelFrames(p))
    ensures !DelaysBy(p, d, first)
  {
    hide Decodable, Emitted, DecodeSigns, Digits, Number, Word, LowBitsOf, Product, Pow2;
    var l := LevelFrames(p);
    var n := first + d + l;
    var frames := AllOnes(p, n + 1);
    var qs := SomeStates(p, n + 1);
    if Decodable(p, frames, qs) {
      DigitsFound(p, frames, qs, l, n);
      LargestLost(p);
      assert Returned(p, frames, qs, n)[p.S..] != frames[n - d][p.S..];
    }
  }

  lemma LargestLost(p: Params)
    requires Sound(p) && !Fits(p)
    ensures var w := LowBitsOf(Pow2(p.K) - 1, p.K); LowBitsOf(Number(Digits(Word(w), p.M), p.M), p.K) != w
  {
    hide Digits, Number, Word, LowBitsOf, Product, Pow2;
    var w := LowBitsOf(Pow2(p.K) - 1, p.K);
    WordOfBits(Pow2(p.K) - 1, p.K);
    SmallMod(Pow2(p.K) - 1, Pow2(p.K));
    NumberOfDigits(Word(w), p.M);
    var v := Number(Digits(Word(w), p.M), p.M);
    WordOfBits(v, p.K);
    BelowProduct(Word(w), Product(p.M));
    SmallMod(v, Pow2(p.K));
  }

  lemma BelowProduct(v: nat, m: nat)
    requires m >= 1
    ensures v % m < m
  {
  }

  /**
   From some frame on, every run comes back some number of whole frames late, inside the decoder's tables, if and
   only if 6 - S divides ld, or for S = 6 ld is 0 or there are no modulus bits, and the constellations are large
   enough for K bits. With the A-law it is then so from the first frame on.
   */
  lemma WholeDelay(p: Params)
    requires Sound(p) && (p.alaw || Signable(p))
    ensures (exists d: nat, first: nat :: DelaysBy(p, d, first)) <==> Whole(p) && Fits(p)
    ensures p.alaw && Whole(p) && Fits(p) ==> DelaysBy(p, WholeFrames(p), 0)
  {
    assert Setting(p) by { if p.alaw { ALawSignable(p); } }
    hide DelaysBy, Setting, Fits;
    if Whole(p) && Fits(p) {
      IsWhole(p);
    } else {
      forall d: nat, first: nat ensures !DelaysBy(p, d, first) {
        if !Fits(p) && (p.S == 6 || Whole(p)) { TooSmall(p, d, first); } else { NotWhole(p, d, first); }
      }
    }
  }
}
