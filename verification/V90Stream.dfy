/** Mapping frames as streams: what the encoder emits, what the decoder makes of it, and the delay. */
module V90Stream {
  import opened Bits
  import opened V90Tables
  import opened V90Radix
  import opened V90Signs
  import opened V90Slicer

  /** Modem parameters: S sign bits, K modulus bits, look-ahead ld, and the codes of each position. */
  datatype Params = Params(S: nat, K: nat, ld: nat, alaw: bool, M: seq<nat>, codes: seq<seq<nat>>)

  ghost predicate Sound(p: Params) {
    && 3 <= p.S <= 6 && p.K <= 31 && p.ld <= 3
    && |p.M| == 6 && |p.codes| == 6 && Positive(p.M)
    && forall j :: 0 <= j < 6 ==> CodesOk(p.codes[j], p.M[j])
  }

  /** The first m codes, strictly descending. */
  ghost predicate CodesOk(codes: seq<nat>, m: nat) {
    && 1 <= m <= |codes|
    && (forall k :: 0 <= k < m ==> codes[k] < CODES)
    && (forall a, b :: 0 <= a < b < m ==> codes[b] < codes[a])
  }

  lemma {:induction false} DescendingCount(codes: seq<nat>, m: nat)
    requires CodesOk(codes, m)
    ensures m + codes[m - 1] <= CODES
    decreases m
  {
    if m > 1 { DescendingCount(codes, m - 1); }
  }

  /** The levels of position j as the decoder lists them. */
  ghost function Row(p: Params, j: nat): (tab: seq<nat>)
    requires Sound(p) && j < 6
    ensures |tab| == CODES
    ensures forall k :: 0 <= k < p.M[j] && k < CODES ==> tab[k] == Levels(p.alaw)[p.codes[j][k]]
    ensures forall k :: p.M[j] <= k < CODES ==> tab[k] == 0
  {
    seq(CODES, k requires 0 <= k => if k < p.M[j] then Levels(p.alaw)[p.codes[j][k]] else 0)
  }

  lemma RowIsTable(p: Params, j: nat)
    requires Sound(p) && j < 6
    ensures Table(Row(p, j), p.M[j])
  {
    hide Levels, Row;
    DescendingCount(p.codes[j], p.M[j]);
    var tab, c := Row(p, j), p.codes[j];
    forall a, b | 0 <= a < b < p.M[j] ensures tab[b] < tab[a] {
      LevelsAscend(p.alaw, c[b], c[a]);
    }
  }

  /** S + K data bits. */
  predicate FrameOk(p: Params, f: seq<u1>) {
    |f| == p.S + p.K
  }

  predicate FramesOk(p: Params, frames: seq<seq<u1>>) {
    forall n :: 0 <= n < |frames| ==> FrameOk(p, frames[n])
  }

  // ----- the encoder's stream -----

  /** Modulus coding of the K bits of a frame: the code of position i. */
  ghost function Code(p: Params, f: seq<u1>, i: nat): (u: nat)
    requires Sound(p) && FrameOk(p, f) && i < 6
    ensures u < CODES
  {
    p.codes[i][Digits(Word(f[p.S..]), p.M)[i]]
  }

  /** The code at position pos of the stream; before its start the ring holds zeros. */
  ghost function CodeAt(p: Params, frames: seq<seq<u1>>, pos: int): (u: nat)
    requires Sound(p) && FramesOk(p, frames) && pos < 6 * |frames|
    ensures u < CODES
  {
    if pos < 0 then 0 else Code(p, frames[pos / 6], pos % 6)
  }

  /** The differential coder's state before frame n. */
  function LastBefore(p: Params, frames: seq<seq<u1>>, n: nat): u1
    requires 3 <= p.S <= 6 && FramesOk(p, frames) && n <= |frames|
  {
    if n == 0 then 0 else LastSign(p.S, frames[n - 1], LastBefore(p, frames, n - 1))
  }

  /** The sign byte of shaping frame s; zero before the start. */
  function ByteAt(p: Params, frames: seq<seq<u1>>, s: int): bv8
    requires 3 <= p.S <= 5 && FramesOk(p, frames) && s < Subframes(p.S) * |frames|
  {
    if s < 0 then 0 else
      var nb := Subframes(p.S);
      SignBytes(p.S, frames[s / nb], LastBefore(p, frames, s / nb))[s % nb]
  }

  function StateBefore(qs: seq<u1>, s: nat): u1
    requires s <= |qs|
  {
    if s == 0 then 0 else qs[s - 1]
  }

  /** The inverted sign byte emitted before shaping frame s, when the shaper goes through states qs. */
  function SignsBefore(p: Params, frames: seq<seq<u1>>, qs: seq<u1>, s: nat): bv8
    requires 3 <= p.S <= 5 && FramesOk(p, frames) && s <= |qs| && |qs| <= Subframes(p.S) * |frames|
  {
    if s == 0 then 0 else
      NextSigns(SignsBefore(p, frames, qs, s - 1), ByteAt(p, frames, s - 1 - p.ld), StateBefore(qs, s - 1), qs[s - 1])
  }

  function Signed(g: u1, level: nat): int {
    var x: int := level;
    if g == 0 then -x else x
  }

  /** States chosen for |frames| frames. */
  predicate StatesOk(p: Params, frames: seq<seq<u1>>, qs: seq<u1>) {
    3 <= p.S <= 6 && |qs| == if p.S == 6 then 0 else Subframes(p.S) * |frames|
  }

  lemma FrameFits(nb: nat, n: nat, count: nat)
    requires n < count
    ensures nb * n + nb == nb * (n + 1) <= nb * count
  {
    MulLe(n + 1, count, nb);
  }

  /** The states chosen for frame n. */
  function FrameStates(p: Params, frames: seq<seq<u1>>, qs: seq<u1>, n: nat): (r: seq<u1>)
    requires p.S <= 5 && StatesOk(p, frames, qs) && n < |frames|
    ensures |r| == Subframes(p.S) && r[|r| - 1] == StateBefore(qs, Subframes(p.S) * (n + 1))
  {
    var nb := Subframes(p.S);
    FrameFits(nb, n, |frames|);
    qs[nb * n..nb * n + nb]
  }

  /** The sign byte of shaping frame k of those emitted with frame n: delayed by ld shaping frames. */
  function FrameByte(p: Params, frames: seq<seq<u1>>, n: nat, k: nat): bv8
    requires 3 <= p.S <= 5 && FramesOk(p, frames) && n < |frames| && k < Subframes(p.S)
  {
    FrameFits(Subframes(p.S), n, |frames|);
    ByteAt(p, frames, Subframes(p.S) * n + k - p.ld)
  }

  /** The inverted sign bytes emitted with frame n. */
  function FrameBytes(p: Params, frames: seq<seq<u1>>, qs: seq<u1>, n: nat): (ts: seq<bv8>)
    requires FramesOk(p, frames) && StatesOk(p, frames, qs) && n < |frames| && p.S <= 5
    ensures |ts| == Subframes(p.S)
    ensures forall k {:trigger ts[k]} :: 0 <= k < |ts| ==>
      ts[k] == SignsBefore(p, frames, qs, Subframes(p.S) * n + k + 1)
  {
    var nb := Subframes(p.S);
    FrameFits(nb, n, |frames|);
    seq(nb, k requires 0 <= k < nb => SignsBefore(p, frames, qs, nb * n + k + 1))
  }

  /** The six signs emitted with frame n. */
  function FrameSigns(p: Params, frames: seq<seq<u1>>, qs: seq<u1>, n: nat): (g: seq<u1>)
    requires FramesOk(p, frames) && StatesOk(p, frames, qs) && n < |frames|
    ensures |g| == 6
  {
    if p.S == 6 then PlainSigns(frames[n], LastBefore(p, frames, n)) else Signs(p.S, FrameBytes(p, frames, qs, n))
  }

  /** The level of sample i of frame n: delayed by ld shaping frames. */
  ghost function LevelAt(p: Params, frames: seq<seq<u1>>, n: nat, i: nat): nat
    requires Sound(p) && FramesOk(p, frames) && n < |frames| && i < 6
  {
    Levels(p.alaw)[CodeAt(p, frames, 6 * n - FrameSize(p.S) * p.ld + i)]
  }

  /** The six samples emitted with frame n. */
  ghost function Emitted(p: Params, frames: seq<seq<u1>>, qs: seq<u1>, n: nat): (r: seq<int>)
    requires Sound(p) && FramesOk(p, frames) && StatesOk(p, frames, qs) && n < |frames|
    ensures |r| == 6
    ensures forall i :: 0 <= i < 6 ==> r[i] == Signed(FrameSigns(p, frames, qs, n)[i], LevelAt(p, frames, n, i))
  {
    var g := FrameSigns(p, frames, qs, n);
    seq(6, i requires 0 <= i < 6 => Signed(g[i], LevelAt(p, frames, n, i)))
  }

  // ----- the decoder -----

  function Magnitude(x: int): nat {
    if x < 0 then -x else x
  }

  /** The decoder looks only inside its tables. */
  ghost predicate SamplesOk(p: Params, samples: seq<int>)
    requires Sound(p)
  {
    && |samples| == 6
    && forall j :: 0 <= j < 6 ==> p.M[j] <= CODES && InRange(Row(p, j), p.M[j], Magnitude(samples[j]))
  }

  function SignsOf(samples: seq<int>): (g: seq<u1>)
    ensures |g| == |samples|
  {
    seq(|samples|, j requires 0 <= j < |samples| => if samples[j] < 0 then 0 else 1)
  }

  ghost function DigitsOf(p: Params, samples: seq<int>): (ds: seq<nat>)
    requires Sound(p) && SamplesOk(p, samples)
    ensures |ds| == 6 && forall j :: 0 <= j < 6 ==> ds[j] == Slice(Row(p, j), p.M[j], Magnitude(samples[j]))
  {
    seq(6, j requires 0 <= j < 6 => Slice(Row(p, j), p.M[j], Magnitude(samples[j])))
  }

  /** The data bits of six samples, and the decoder's next state. */
  ghost function DecodeFrame(p: Params, st: SignState, samples: seq<int>): (r: Decoded)
    requires Sound(p) && SamplesOk(p, samples)
    ensures |r.data| == p.S + p.K
  {
    var r := DecodeSigns(p.S, st, SignsOf(samples));
    Decoded(r.data + LowBitsOf(Number(DigitsOf(p, samples), p.M), p.K), r.state)
  }

  // ----- the delay -----

  /** Whole mapping frames of delay. */
  predicate Delay(p: Params, d: nat)
  {
    if p.S == 6 then p.ld == 0 && d == 0 else 3 <= p.S <= 5 && Subframes(p.S) * d == p.ld
  }

  /** The magnitudes are delayed by whole mapping frames. */
  predicate LevelDelay(p: Params, d: nat) {
    3 <= p.S <= 6 && FrameSize(p.S) * p.ld == 6 * d
  }

  lemma DelayInCodes(p: Params, d: nat)
    requires Sound(p) && Delay(p, d)
    ensures LevelDelay(p, d)
  {
  }

  /** Frame m of the data, all zero before the start. */
  function FrameAt(p: Params, frames: seq<seq<u1>>, m: int): (f: seq<u1>)
    requires FramesOk(p, frames) && m < |frames|
    ensures FrameOk(p, f)
  {
    if m < 0 then seq(p.S + p.K, _ => 0) else frames[m]
  }

  function LastAt(p: Params, frames: seq<seq<u1>>, m: int): u1
    requires 3 <= p.S <= 6 && FramesOk(p, frames) && m <= |frames|
  {
    if m < 0 then 0 else LastBefore(p, frames, m)
  }

  lemma IdleFrame(S: nat, f: seq<u1>)
    requires 3 <= S <= 5 && |f| >= S && forall i :: 0 <= i < |f| ==> f[i] == 0
    ensures LastSign(S, f, 0) == 0
    ensures forall k :: 0 <= k < Subframes(S) ==> SignBytes(S, f, 0)[k] == 0
  {
  }

  /** With a delay of whole frames the shaping frames emitted with frame n are those of frame n - d. */
  lemma AlignedByte(p: Params, frames: seq<seq<u1>>, d: nat, n: nat, k: nat)
    requires 3 <= p.S <= 5 && FramesOk(p, frames) && Delay(p, d) && n < |frames| && k < Subframes(p.S)
    ensures FrameByte(p, frames, n, k)
         == SignBytes(p.S, FrameAt(p, frames, n - d), LastAt(p, frames, n - d))[k]
  {
    hide SignBytes, LastBefore;
    var nb, m := Subframes(p.S), n - d;
    assert nb * n + k - p.ld == nb * m + k;
    if m < 0 {
      assert nb * m + k < 0;
      IdleFrame(p.S, FrameAt(p, frames, m));
    } else {
      assert (nb * m + k) / nb == m && (nb * m + k) % nb == k;
    }
  }

  lemma LastAfter(p: Params, frames: seq<seq<u1>>, m: int)
    requires 3 <= p.S <= 5 && FramesOk(p, frames) && m < |frames|
    ensures LastSign(p.S, FrameAt(p, frames, m), LastAt(p, frames, m)) == LastAt(p, frames, m + 1)
  {
    if m < 0 { IdleFrame(p.S, FrameAt(p, frames, m)); }
  }

  /** The sign bytes emitted from shaping frame s on are a chain. */
  lemma {:induction false} EmittedChain(p: Params, frames: seq<seq<u1>>, qs: seq<u1>, s: nat, pv: seq<bv8>,
                                        ts: seq<bv8>)
    requires 3 <= p.S <= 5 && FramesOk(p, frames) && |qs| <= Subframes(p.S) * |frames|
    requires |pv| == |ts| && s + |pv| <= |qs|
    requires forall k :: 0 <= k < |pv| ==> pv[k] == ByteAt(p, frames, s + k - p.ld)
    requires forall k :: 0 <= k < |ts| ==> ts[k] == SignsBefore(p, frames, qs, s + k + 1)
    ensures Chain(SignsBefore(p, frames, qs, s), StateBefore(qs, s), pv, qs[s..s + |pv|]) == ts
    decreases pv
  {
    hide NextSigns, ByteAt;
    if pv != [] {
      assert ts[0] == SignsBefore(p, frames, qs, s + 1);
      assert pv[0] == ByteAt(p, frames, s + 0 - p.ld);
      EmittedChain(p, frames, qs, s + 1, pv[1..], ts[1..]);
      assert qs[s..s + |pv|][1..] == qs[s + 1..s + 1 + |pv[1..]|];
    }
  }
}
