/** The mapping-frame decoder, and the loop that sends frames from one to the other. */
module V90Decoder {
  import opened Bits
  import opened V90Radix
  import opened V90Signs
  import opened V90Slicer
  import opened V90Stream
  import opened V90Encoder
  import opened V90Delay

  /** The levels of every position, as the decoder's tables hold them. */
  ghost predicate TablesMatch(p: Params, tabs: seq<seq<nat>>)
    requires Sound(p)
  {
    |tabs| == 6 && forall j :: 0 <= j < 6 ==> tabs[j] == Row(p, j)
  }

  lemma NumberStep(ds: seq<nat>, ms: seq<nat>, j: nat)
    requires |ds| == |ms| && j < |ms|
    ensures Number(ds[j..], ms[j..]) == Number(ds[j + 1..], ms[j + 1..]) * ms[j] + ds[j]
  {
    assert ds[j..][1..] == ds[j + 1..] && ms[j..][1..] == ms[j + 1..];
  }

  class V90DecodeState {
    const p: Params
    const tabs: seq<seq<nat>>   // m_to_linear
    var lastSign: u1
    var t: bv8
    var Q: u1

    ghost predicate Valid() {
      Sound(p) && TablesMatch(p, tabs)
    }

    function State(): SignState
      reads this
    {
      SignState(t, Q, lastSign)
    }

    constructor (p: Params, tabs: seq<seq<nat>>)
      requires Sound(p) && TablesMatch(p, tabs)
      ensures Valid() && State() == SignState(0, 0, 0) && this.p == p
    {
      this.p, this.tabs := p, tabs;
      lastSign, t, Q := 0, 0, 0;
    }

    /** The modulus number and the signs of six samples. */
    method Slices(samples: array<int>) returns (number: nat, g: seq<u1>)
      requires Valid() && samples.Length == 6 && SamplesOk(p, samples[..])
      ensures number == Number(DigitsOf(p, samples[..]), p.M) && g == SignsOf(samples[..])
    {
      hide Row, Number, Slice, InRange;
      ghost var ds := DigitsOf(p, samples[..]);
      number, g := 0, [];
      var j := 6;
      assert ds[6..] == [] && p.M[6..] == [] by { assert |ds| == 6; }
      NumberOfNone();
      while j > 0
        invariant 0 <= j <= 6 && number == Number(ds[j..], p.M[j..])
        invariant g == SignsOf(samples[..])[j..]
      {
        j := j - 1;
        var val, sign: u1 := samples[j], 1;
        if val < 0 { val, sign := -val, 0; }
        RowIsTable(p, j);
        var m := FindLevel(tabs[j], p.M[j], val);
        g := [sign] + g;
        NumberStep(ds, p.M, j);
        number := number * p.M[j] + m;
      }
      assert ds[0..] == ds && p.M[0..] == p.M;
    }

    /** Decode six samples to S + K data bits. */
    method DecodeSamples(samples: array<int>) returns (data: seq<u1>)
      requires Valid() && samples.Length == 6 && SamplesOk(p, samples[..])
      modifies this
      ensures data == DecodeFrame(p, old(State()), samples[..]).data
      ensures State() == DecodeFrame(p, old(State()), samples[..]).state
    {
      hide DecodeSigns, LowBitsOf, Number;
      var number, g := Slices(samples);
      var bits := OutputBits(number, p.K);
      var r := DecodeSigns(p.S, State(), g);
      data := r.data + bits;
      t, Q, lastSign := r.state.t, r.state.q, r.state.last;
    }
  }

  lemma NumberOfNone()
    ensures Number([], []) == 0
  {
  }

  /** The n low-order bits of a number, by shifting. */
  method OutputBits(number: nat, n: nat) returns (bits: seq<u1>)
    ensures bits == LowBitsOf(number, n)
  {
    hide LowBitsOf;
    var v, i := number, 0;
    bits := [];
    while i < n
      invariant 0 <= i <= n && |bits| == i
      invariant LowBitsOf(number, n) == bits + LowBitsOf(v, n - i)
    {
      NextBit(bits, v, n - i);
      bits := bits + [if v % 2 == 0 then 0 else 1];
      v := v / 2;
      i := i + 1;
    }
  }

  lemma NextBit(done: seq<u1>, v: nat, n: nat)
    requires n > 0
    ensures done + LowBitsOf(v, n) == done + [if v % 2 == 0 then 0 else 1] + LowBitsOf(v / 2, n - 1)
  {
    var b: seq<u1> := [if v % 2 == 0 then 0 else 1];
    assert LowBitsOf(v, n) == b + LowBitsOf(v / 2, n - 1);
  }

  // ----- the transmission loop -----

  /** Encoding a further frame does not change what the decoder is in step with. */
  lemma StillSynced(p: Params, frames: seq<seq<u1>>, data: seq<u1>, qs: seq<u1>, more: seq<u1>, d: nat, st: SignState)
    requires FramesOk(p, frames) && FrameOk(p, data) && StatesOk(p, frames, qs) && qs <= more
    requires Synced(p, frames, qs, d, |frames|, st)
    ensures FramesOk(p, frames + [data])
    ensures StatesOk(p, frames + [data], more) ==> Synced(p, frames + [data], more, d, |frames|, st)
  {
    hide InStep, SignsBefore, LastBefore;
    LastKept(p, frames, data, |frames|);
    if |frames| >= d { LastKept(p, frames, data, |frames| - d); }
    if p.S <= 5 && StatesOk(p, frames + [data], more) {
      SignsKept(p, frames, data, qs, |qs|);
      SignsStable(p, frames + [data], qs, more, |qs|);
    }
  }

  /** Encode frames one after another and decode what arrives: a fresh pair of modems. */
  method Transmit(enc: V90EncodeState, dec: V90DecodeState, input: seq<seq<u1>>, ghost d: nat)
    returns (output: seq<seq<u1>>)
    requires enc.Valid() && dec.Valid() && enc.p == dec.p && Delay(enc.p, d)
    requires enc.frames == [] && dec.State() == SignState(0, 0, 0)
    requires FramesOk(enc.p, input) && Signable(enc.p) && (enc.p.alaw || d == 0) && Pow2(enc.p.K) <= Product(enc.p.M)
    modifies enc, enc.ucode, enc.pp, dec
    ensures |output| == |input| && forall n :: d <= n < |input| ==> output[n] == input[n - d]
  {
    hide DecodeFrame, Emitted, SamplesOk, Synced, FrameSigns, Product, Pow2, Signable, Delay;
    ghost var p := enc.p;
    var samples := new int[6];
    output := [];
    var n := 0;
    FreshInStep(p, enc.frames, enc.qs, d);
    while n < |input|
      invariant 0 <= n <= |input| && |output| == n && enc.Valid() && dec.Valid() && fresh(samples)
      invariant enc.frames == input[..n] && Synced(p, enc.frames, enc.qs, d, n, dec.State())
      invariant forall m :: d <= m < n ==> output[m] == input[m - d]
    {
      ghost var st, before, states := dec.State(), enc.frames, enc.qs;
      enc.EncodeFrame(samples, input[n]);
      StillSynced(p, before, input[n], states, enc.qs, d, st);
      FrameInStep(p, enc.frames, enc.qs, d, n, st);
      var data := dec.DecodeSamples(samples);
      output := output + [data];
      n := n + 1;
    }
  }
}
