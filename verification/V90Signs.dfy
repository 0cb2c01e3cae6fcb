/** Differential sign coding with redundancy, and its decoder. */
module V90Signs {
  import opened V90Radix

  function Xor(a: u1, b: u1): u1 {
    a ^ b
  }

  /** Entry (q' << 1) | q of the inversion table. */
  function SignOp(q': u1, q: u1): bv8 {
    if q' == 0 then (if q == 0 then 0 else 0x55) else if q == 0 then 0xff else 0xaa
  }

  /** Shaping frames per mapping frame: one redundant bit each. */
  function Subframes(S: nat): (n: nat)
    requires 3 <= S <= 5
    ensures 1 <= n <= 3
  {
    6 - S
  }

  /** PAM values in a shaping frame. */
  function FrameSize(S: nat): (n: nat)
    requires 3 <= S <= 6
    ensures n == 6 || n == 3 || n == 2
    ensures S <= 5 ==> n * Subframes(S) == 6
  {
    if S >= 5 then 6 else if S == 4 then 3 else 2
  }

  function Mask(fs: nat): bv8 {
    if fs == 6 then 0x3f else if fs == 3 then 7 else 3
  }

  /** Bit b in place i. */
  function Put(b: u1, i: nat): bv8
    requires i < 8
  {
    (b as bv8) << i
  }

  function Shift5(a: u1, b: u1, c: u1, d: u1, e: u1): bv8 {
    Put(a, 1) | Put(b, 2) | Put(c, 3) | Put(d, 4) | Put(e, 5)
  }

  function Shift2(a: u1, b: u1): bv8 {
    Put(a, 1) | Put(b, 2)
  }

  function Join6(a: u1, b: u1, c: u1, d: u1, e: u1, f: u1): bv8 {
    a | Put(b, 1) | Put(c, 2) | Put(d, 3) | Put(e, 4) | Put(f, 5)
  }

  function Join3(a: u1, b: u1, c: u1): bv8 {
    a | Put(b, 1) | Put(c, 2)
  }

  function Join2(a: u1, b: u1): bv8 {
    a | Put(b, 1)
  }

  function Low(t: bv8, mask: bv8): bv8 {
    t & mask
  }

  predicate Even(v: bv8) {
    v & 1 == 0
  }

  /** The sign bytes of the shaping frames, before inversion. */
  function SignBytes(S: nat, data: seq<u1>, last: u1): (pv: seq<bv8>)
    requires 3 <= S <= 5 && |data| >= S
    ensures |pv| == Subframes(S)
  {
    if S == 5 then
      var pp1: u1 := Xor(data[0], last);
      var pp3: u1 := Xor(data[2], pp1);
      var pp5: u1 := Xor(data[4], pp3);
      [Shift5(pp1, data[1], pp3, data[3], pp5)]
    else if S == 4 then
      var pp1: u1 := Xor(data[0], last);
      var pp4: u1 := Xor(data[2], pp1);
      [Shift2(pp1, data[1]), Shift2(pp4, data[3])]
    else
      var pp1: u1 := Xor(data[0], last);
      var pp3: u1 := Xor(data[1], pp1);
      var pp5: u1 := Xor(data[2], pp3);
      [Put(pp1, 1), Put(pp3, 1), Put(pp5, 1)]
  }

  /** The differential coder's last sign after a frame. */
  function LastSign(S: nat, data: seq<u1>, last: u1): u1
    requires 3 <= S <= 6 && |data| >= S
  {
    if S == 6 then Xor(data[5], Xor(data[4], Xor(data[3], Xor(data[2], Xor(data[1], Xor(data[0], last))))))
    else if S == 5 then Xor(data[4], Xor(data[2], Xor(data[0], last)))
    else if S == 4 then Xor(data[2], Xor(data[0], last))
    else Xor(data[2], Xor(data[1], Xor(data[0], last)))
  }

  /** What the decoder remembers between frames. */
  datatype SignState = SignState(t: bv8, q: u1, last: u1)

  datatype Recovered = Recovered(pv: bv8, q: u1)

  /** The sign byte and the next state behind two successive received sign bytes. */
  function Recover(t: bv8, t': bv8, q: u1, mask: bv8): (r: Recovered) {
    var pv := t ^ t';
    var q': u1 := (pv & 1) ^ q;
    Recovered(pv ^ (SignOp(q', q) & mask), q')
  }

  datatype Decoded = Decoded(data: seq<u1>, state: SignState)

  function Bit(v: bv8, i: nat): u1
    requires i < 8
  {
    (v >> i) & 1
  }

  /** Received signs, packed by shaping frame. */
  function Packed(S: nat, g: seq<u1>): (ts: seq<bv8>)
    requires 3 <= S <= 5 && |g| == 6
    ensures |ts| == Subframes(S)
  {
    if S == 5 then
      [Join6(g[0], g[1], g[2], g[3], g[4], g[5])]
    else if S == 4 then
      [Join3(g[0], g[1], g[2]), Join3(g[3], g[4], g[5])]
    else
      [Join2(g[0], g[1]), Join2(g[2], g[3]), Join2(g[4], g[5])]
  }

  /** What is behind each received sign byte. */
  function RecoverAll(t: bv8, q: u1, ts: seq<bv8>, mask: bv8): (rs: seq<Recovered>)
    ensures |rs| == |ts|
    decreases ts
  {
    if ts == [] then [] else
      var r := Recover(t, ts[0], q, mask);
      [r] + RecoverAll(ts[0], r.q, ts[1..], mask)
  }

  /** The sign data bits behind the sign bytes of a frame. */
  function DataBits(S: nat, rs: seq<Recovered>, last: u1): (data: seq<u1>)
    requires 3 <= S <= 5 && |rs| == Subframes(S)
    ensures |data| == S
  {
    if S == 5 then
      var pp1, pp3, pp5 := Bit(rs[0].pv, 1), Bit(rs[0].pv, 3), Bit(rs[0].pv, 5);
      [Xor(pp1, last), Bit(rs[0].pv, 2), Xor(pp1, pp3), Bit(rs[0].pv, 4), Xor(pp3, pp5)]
    else if S == 4 then
      var pp1, pp4 := Bit(rs[0].pv, 1), Bit(rs[1].pv, 1);
      [Xor(pp1, last), Bit(rs[0].pv, 2), Xor(pp4, pp1), Bit(rs[1].pv, 2)]
    else
      var pp1, pp3, pp5 := Bit(rs[0].pv, 1), Bit(rs[1].pv, 1), Bit(rs[2].pv, 1);
      [Xor(pp1, last), Xor(pp3, pp1), Xor(pp5, pp3)]
  }

  /** The last sign of a frame, from its last sign byte. */
  function LastOf(S: nat, rs: seq<Recovered>): u1
    requires 3 <= S <= 5 && |rs| == Subframes(S)
  {
    Bit(rs[|rs| - 1].pv, if S == 5 then 5 else 1)
  }

  /** The S sign data bits of a frame with these six signs. */
  function DecodeSigns(S: nat, st: SignState, g: seq<u1>): (r: Decoded)
    requires 3 <= S <= 6 && |g| == 6
    ensures |r.data| == S
  {
    if S == 6 then
      Decoded([Xor(st.last, g[0]), Xor(g[0], g[1]), Xor(g[1], g[2]), Xor(g[2], g[3]), Xor(g[3], g[4]), Xor(g[4], g[5])],
              SignState(st.t, st.q, g[5]))
    else
      var ts := Packed(S, g);
      var rs := RecoverAll(st.t, st.q, ts, Mask(FrameSize(S)));
      Decoded(DataBits(S, rs, st.last), SignState(ts[|ts| - 1], rs[|rs| - 1].q, LastOf(S, rs)))
  }

  /** Sign byte after one shaping frame: the redundancy inverts bits by the states before and after. */
  function NextSigns(t: bv8, pv: bv8, q: u1, q': u1): bv8 {
    t ^ pv ^ SignOp(q', q)
  }

  /** The six signs of a frame from its shaping frames' sign bytes. */
  function Signs(S: nat, ts: seq<bv8>): (g: seq<u1>)
    requires 3 <= S <= 5 && |ts| == Subframes(S)
    ensures |g| == 6 && forall i :: 0 <= i < 6 ==> g[i] == Bit(ts[i / FrameSize(S)], i % FrameSize(S))
  {
    seq(6, i requires 0 <= i < 6 => Bit(ts[i / FrameSize(S)], i % FrameSize(S)))
  }

  /** Signs of a frame without redundancy. */
  function PlainSigns(data: seq<u1>, last: u1): (g: seq<u1>)
    requires |data| >= 6
    ensures |g| == 6
  {
    var a: u1 := Xor(data[0], last);
    var b: u1 := Xor(data[1], a);
    var c: u1 := Xor(data[2], b);
    var d: u1 := Xor(data[3], c);
    var e: u1 := Xor(data[4], d);
    [a, b, c, d, e, Xor(data[5], e)]
  }

  /** The sign bytes of successive shaping frames, through the states qs chosen by the shaper. */
  function Chain(t: bv8, q: u1, pv: seq<bv8>, qs: seq<u1>): (ts: seq<bv8>)
    requires |pv| == |qs|
    ensures |ts| == |pv|
    decreases pv
  {
    if pv == [] then [] else
      var n := NextSigns(t, pv[0], q, qs[0]);
      [n] + Chain(n, qs[0], pv[1..], qs[1..])
  }

  function Masked(ts: seq<bv8>, mask: bv8): (r: seq<bv8>)
    ensures |r| == |ts| && forall k :: 0 <= k < |ts| ==> r[k] == Low(ts[k], mask)
  {
    seq(|ts|, k requires 0 <= k < |ts| => Low(ts[k], mask))
  }

  lemma Twice(a: u1, b: u1)
    ensures Xor(a, Xor(b, a)) == b && Xor(Xor(b, a), a) == b
  {
  }

  lemma Plain(data: seq<u1>, st: SignState)
    requires |data| == 6
    ensures DecodeSigns(6, st, PlainSigns(data, st.last))
         == Decoded(data, SignState(st.t, st.q, LastSign(6, data, st.last)))
  {
    var g := PlainSigns(data, st.last);
    Twice(st.last, data[0]);
    Twice(g[0], data[1]);
    Twice(g[1], data[2]);
    Twice(g[2], data[3]);
    Twice(g[3], data[4]);
    Twice(g[4], data[5]);
    assert DecodeSigns(6, st, g).data == data;
  }

  lemma Pack6(t: bv8)
    ensures Join6(Bit(t, 0), Bit(t, 1), Bit(t, 2), Bit(t, 3), Bit(t, 4), Bit(t, 5)) == Low(t, 0x3f)
  {
  }

  lemma Pack3(t: bv8)
    ensures Join3(Bit(t, 0), Bit(t, 1), Bit(t, 2)) == Low(t, 7)
    ensures Join2(Bit(t, 0), Bit(t, 1)) == Low(t, 3)
  {
  }

  /** Whatever the next state, the receiver finds it and removes the inversion. */
  lemma RecoverInverts(t: bv8, pv: bv8, q: u1, q': u1, mask: bv8)
    requires Even(pv) && mask & 1 == 1
    ensures Recover(Low(t, mask), Low(NextSigns(t, pv, q, q'), mask), q, mask) == Recovered(Low(pv, mask), q')
  {
  }

  lemma Shift5Bits(a: u1, b: u1, c: u1, d: u1, e: u1)
    ensures var pv := Shift5(a, b, c, d, e);
      Even(pv) && Low(pv, 0x3f) == pv
      && Bit(pv, 1) == a && Bit(pv, 2) == b && Bit(pv, 3) == c && Bit(pv, 4) == d && Bit(pv, 5) == e
  {
  }

  lemma Shift2Bits(a: u1, b: u1)
    ensures var pv := Shift2(a, b); Even(pv) && Low(pv, 7) == pv && Bit(pv, 1) == a && Bit(pv, 2) == b
    ensures var pv := Put(a, 1); Even(pv) && Low(pv, 3) == pv && Bit(pv, 1) == a
  {
  }

  /** Whatever states the shaper chooses, the receiver finds them and the sign bytes. */
  lemma {:induction false} ChainRecovered(t: bv8, q: u1, pv: seq<bv8>, qs: seq<u1>, mask: bv8)
    requires |pv| == |qs| && mask & 1 == 1
    requires forall k :: 0 <= k < |pv| ==> Even(pv[k])
    ensures var rs := RecoverAll(Low(t, mask), q, Masked(Chain(t, q, pv, qs), mask), mask);
      forall k :: 0 <= k < |pv| ==> rs[k] == Recovered(Low(pv[k], mask), qs[k])
    decreases pv
  {
    hide NextSigns, Recover, Low, Even;
    if pv != [] {
      var n := NextSigns(t, pv[0], q, qs[0]);
      RecoverInverts(t, pv[0], q, qs[0], mask);
      ChainRecovered(n, qs[0], pv[1..], qs[1..], mask);
      assert Masked(Chain(t, q, pv, qs), mask)[1..] == Masked(Chain(n, qs[0], pv[1..], qs[1..]), mask);
      var rs := RecoverAll(Low(t, mask), q, Masked(Chain(t, q, pv, qs), mask), mask);
      var rs' := RecoverAll(Low(n, mask), qs[0], Masked(Chain(n, qs[0], pv[1..], qs[1..]), mask), mask);
      forall k | 0 <= k < |pv| ensures rs[k] == Recovered(Low(pv[k], mask), qs[k]) {
        if k > 0 { assert rs[k] == rs'[k - 1]; }
      }
    }
  }

  /** Packing the signs of a frame gives back the sign bytes, as far as they are sent. */
  lemma PackedSigns(S: nat, ts: seq<bv8>)
    requires 3 <= S <= 5 && |ts| == Subframes(S)
    ensures Packed(S, Signs(S, ts)) == Masked(ts, Mask(FrameSize(S)))
  {
    if S == 5 {
      Packed5(ts);
    } else if S == 4 {
      Packed4(ts);
    } else {
      Packed3(ts);
    }
  }

  lemma Packed5(ts: seq<bv8>)
    requires |ts| == 1
    ensures Packed(5, Signs(5, ts)) == Masked(ts, 0x3f)
  {
    hide Bit, Low, Join6, Join3, Join2;
    var g := Signs(5, ts);
    assert g == [Bit(ts[0], 0), Bit(ts[0], 1), Bit(ts[0], 2), Bit(ts[0], 3), Bit(ts[0], 4), Bit(ts[0], 5)];
    Pack6(ts[0]);
  }

  lemma Packed4(ts: seq<bv8>)
    requires |ts| == 2
    ensures Packed(4, Signs(4, ts)) == Masked(ts, 7)
  {
    hide Bit, Low, Join6, Join3, Join2;
    var g := Signs(4, ts);
    assert g[0] == Bit(ts[0], 0) && g[1] == Bit(ts[0], 1) && g[2] == Bit(ts[0], 2);
    assert g[3] == Bit(ts[1], 0) && g[4] == Bit(ts[1], 1) && g[5] == Bit(ts[1], 2);
    Pack3(ts[0]);
    Pack3(ts[1]);
  }

  lemma Packed3(ts: seq<bv8>)
    requires |ts| == 3
    ensures Packed(3, Signs(3, ts)) == Masked(ts, 3)
  {
    hide Bit, Low, Join6, Join3, Join2;
    var g := Signs(3, ts);
    assert g[0] == Bit(ts[0], 0) && g[1] == Bit(ts[0], 1);
    assert g[2] == Bit(ts[1], 0) && g[3] == Bit(ts[1], 1);
    assert g[4] == Bit(ts[2], 0) && g[5] == Bit(ts[2], 1);
    Pack3(ts[0]);
    Pack3(ts[1]);
    Pack3(ts[2]);
  }

  /** The sign bytes of a frame hold its data and its last sign; their first bit is free. */
  lemma BytesHoldData(S: nat, data: seq<u1>, last: u1, rs: seq<Recovered>)
    requires 3 <= S <= 5 && |data| >= S && |rs| == Subframes(S)
    requires forall k :: 0 <= k < |rs| ==> rs[k].pv == Low(SignBytes(S, data, last)[k], Mask(FrameSize(S)))
    ensures forall k :: 0 <= k < |rs| ==> Even(SignBytes(S, data, last)[k])
    ensures Holds(S, data, last, rs)
  {
    if S == 5 {
      Data5(data, last, rs);
    } else if S == 4 {
      Data4(data, last, rs);
    } else {
      Data3(data, last, rs);
    }
  }

  predicate Holds(S: nat, data: seq<u1>, last: u1, rs: seq<Recovered>)
    requires 3 <= S <= 5 && |data| >= S && |rs| == Subframes(S)
  {
    DataBits(S, rs, last) == data[..S] && LastOf(S, rs) == LastSign(S, data, last)
  }

  lemma Data5(data: seq<u1>, last: u1, rs: seq<Recovered>)
    requires |data| >= 5 && |rs| == 1 && rs[0].pv == Low(SignBytes(5, data, last)[0], 0x3f)
    ensures Even(SignBytes(5, data, last)[0]) && Holds(5, data, last, rs)
  {
    hide Put, Bit, Xor, Low, Even, Shift5, Shift2;
    var pp1 := Xor(data[0], last);
    var pp3 := Xor(data[2], pp1);
    var pp5 := Xor(data[4], pp3);
    Twice(last, data[0]);
    Twice(pp1, data[2]);
    Twice(pp3, data[4]);
    Shift5Bits(pp1, data[1], pp3, data[3], pp5);
  }

  lemma Data4(data: seq<u1>, last: u1, rs: seq<Recovered>)
    requires |data| >= 4 && |rs| == 2
    requires forall k :: 0 <= k < 2 ==> rs[k].pv == Low(SignBytes(4, data, last)[k], 7)
    ensures forall k :: 0 <= k < 2 ==> Even(SignBytes(4, data, last)[k])
    ensures Holds(4, data, last, rs)
  {
    hide Put, Bit, Xor, Low, Even, Shift5, Shift2;
    var pp1 := Xor(data[0], last);
    var pp4 := Xor(data[2], pp1);
    Twice(last, data[0]);
    Twice(pp1, data[2]);
    Shift2Bits(pp1, data[1]);
    Shift2Bits(pp4, data[3]);
  }

  lemma Data3(data: seq<u1>, last: u1, rs: seq<Recovered>)
    requires |data| >= 3 && |rs| == 3
    requires forall k :: 0 <= k < 3 ==> rs[k].pv == Low(SignBytes(3, data, last)[k], 3)
    ensures forall k :: 0 <= k < 3 ==> Even(SignBytes(3, data, last)[k])
    ensures Holds(3, data, last, rs)
  {
    hide Put, Bit, Xor, Low, Even, Shift5, Shift2;
    var pp1 := Xor(data[0], last);
    var pp3 := Xor(data[1], pp1);
    var pp5 := Xor(data[2], pp3);
    Twice(last, data[0]);
    Twice(pp1, data[1]);
    Twice(pp3, data[2]);
    Shift2Bits(pp1, 0);
    Shift2Bits(pp3, 0);
    Shift2Bits(pp5, 0);
  }

  lemma OddMask(fs: nat)
    ensures Mask(fs) & 1 == 1
  {
  }

  /** Decoder and encoder agree: same sign byte, as far as it is sent, same state, same last sign. */
  predicate InStep(S: nat, st: SignState, t: bv8, q: u1, last: u1)
    requires 3 <= S <= 5
  {
    st.t == Low(t, Mask(FrameSize(S))) && st.q == q && st.last == last
  }

  /** In step, a frame's signs give its data, and the two stay in step, whatever states the shaper chose. */
  lemma FrameDecodes(S: nat, data: seq<u1>, st: SignState, t: bv8, q: u1, last: u1, qs: seq<u1>)
    requires 3 <= S <= 5 && |data| >= S && |qs| == Subframes(S) && InStep(S, st, t, q, last)
    ensures var ts := Chain(t, q, SignBytes(S, data, last), qs);
      var r := DecodeSigns(S, st, Signs(S, ts));
      r.data == data[..S] && InStep(S, r.state, ts[|ts| - 1], qs[|qs| - 1], LastSign(S, data, last))
  {
    hide Chain, SignBytes, Low, Even, DataBits, LastSign, LastOf, RecoverAll, Packed, Signs, Mask;
    var pv, mask := SignBytes(S, data, last), Mask(FrameSize(S));
    var ts := Chain(t, q, pv, qs);
    PackedSigns(S, ts);
    OddMask(FrameSize(S));
    EvenBytes(S, data, last);
    ChainRecovered(t, q, pv, qs, mask);
    BytesHoldData(S, data, last, RecoverAll(Low(t, mask), q, Masked(ts, mask), mask));
  }

  lemma EvenBytes(S: nat, data: seq<u1>, last: u1)
    requires 3 <= S <= 5 && |data| >= S
    ensures forall k :: 0 <= k < Subframes(S) ==> Even(SignBytes(S, data, last)[k])
  {
    var pv, mask := SignBytes(S, data, last), Mask(FrameSize(S));
    var rs := seq(|pv|, k requires 0 <= k < |pv| => Recovered(Low(pv[k], mask), 0));
    BytesHoldData(S, data, last, rs);
  }

  // ----- resynchronisation -----

  function Parity(t: bv8): u1 {
    t & 1
  }

  lemma ParityStep(t: bv8, pv: bv8, q: u1, q': u1)
    requires Even(pv) && q == Parity(t)
    ensures Parity(NextSigns(t, pv, q, q')) == q'
  {
  }

  lemma ParityLow(t: bv8, mask: bv8)
    requires mask & 1 == 1
    ensures Parity(Low(t, mask)) == Parity(t)
  {
  }

  lemma RecoverParity(t: bv8, t': bv8, q: u1, mask: bv8)
    requires q == Parity(t)
    ensures Recover(t, t', q, mask).q == Parity(t')
  {
  }

  /** The shaper's state is always the first sign it last sent. */
  lemma {:induction false} ChainParity(t: bv8, q: u1, pv: seq<bv8>, qs: seq<u1>)
    requires |pv| == |qs| && q == Parity(t)
    requires forall k :: 0 <= k < |pv| ==> Even(pv[k])
    ensures forall k :: 0 <= k < |pv| ==> qs[k] == Parity(Chain(t, q, pv, qs)[k])
    decreases pv
  {
    hide NextSigns, Parity, Even;
    if pv != [] {
      ParityStep(t, pv[0], q, qs[0]);
      ChainParity(NextSigns(t, pv[0], q, qs[0]), qs[0], pv[1..], qs[1..]);
    }
  }

  /** The receiver's state is always the first sign it last received, whatever was sent. */
  lemma {:induction false} ReceivedParity(t: bv8, q: u1, ts: seq<bv8>, mask: bv8)
    requires q == Parity(t)
    ensures forall k :: 0 <= k < |ts| ==> RecoverAll(t, q, ts, mask)[k].q == Parity(ts[k])
    decreases ts
  {
    hide Recover, Parity;
    if ts != [] {
      RecoverParity(t, ts[0], q, mask);
      ReceivedParity(ts[0], Recover(t, ts[0], q, mask).q, ts[1..], mask);
    }
  }

  lemma StateIsParity(S: nat, st: SignState, g: seq<u1>)
    requires 3 <= S <= 5 && |g| == 6 && st.q == Parity(st.t)
    ensures var r := DecodeSigns(S, st, g).state; r.q == Parity(r.t)
  {
    hide Packed, RecoverAll, Parity, DataBits, LastOf;
    ReceivedParity(st.t, st.q, Packed(S, g), Mask(FrameSize(S)));
  }

  /** One frame's sign bytes received whole restore the sign byte and the state, whatever was lost before. */
  lemma ChainRestores(S: nat, st: SignState, t: bv8, q: u1, pv: seq<bv8>, qs: seq<u1>)
    requires 3 <= S <= 5 && |pv| == |qs| == Subframes(S) && forall k :: 0 <= k < |pv| ==> Even(pv[k])
    requires q == Parity(t) && st.q == Parity(st.t)
    ensures var ts := Chain(t, q, pv, qs);
      var r := DecodeSigns(S, st, Signs(S, ts)).state;
      InStep(S, r, ts[|ts| - 1], qs[|qs| - 1], r.last) && qs[|qs| - 1] == Parity(ts[|ts| - 1])
  {
    hide Chain, Low, Even, DataBits, LastOf, RecoverAll, Packed, Signs, Mask, Parity;
    var ts, mask := Chain(t, q, pv, qs), Mask(FrameSize(S));
    PackedSigns(S, ts);
    ChainParity(t, q, pv, qs);
    StateIsParity(S, st, Signs(S, ts));
    OddMask(FrameSize(S));
    ParityLow(ts[|ts| - 1], mask);
  }

  /** The same for a frame of data. */
  lemma FrameRestoresState(S: nat, data: seq<u1>, st: SignState, t: bv8, q: u1, last: u1, qs: seq<u1>)
    requires 3 <= S <= 5 && |data| >= S && |qs| == Subframes(S)
    requires q == Parity(t) && st.q == Parity(st.t)
    ensures var ts := Chain(t, q, SignBytes(S, data, last), qs);
      var r := DecodeSigns(S, st, Signs(S, ts)).state;
      InStep(S, r, ts[|ts| - 1], qs[|qs| - 1], r.last) && qs[|qs| - 1] == Parity(ts[|ts| - 1])
  {
    hide Chain, SignBytes, Even, Signs, Parity, DecodeSigns, InStep;
    EvenBytes(S, data, last);
    ChainRestores(S, st, t, q, SignBytes(S, data, last), qs);
  }

  /** In step but for the last sign, a frame loses at most its first bit, and restores the last sign. */
  lemma FrameRestoresLast(S: nat, data: seq<u1>, st: SignState, t: bv8, q: u1, last: u1, qs: seq<u1>)
    requires 3 <= S <= 5 && |data| >= S && |qs| == Subframes(S) && InStep(S, st, t, q, st.last)
    ensures var ts := Chain(t, q, SignBytes(S, data, last), qs);
      var r := DecodeSigns(S, st, Signs(S, ts));
      r.data[1..] == data[1..S] && InStep(S, r.state, ts[|ts| - 1], qs[|qs| - 1], LastSign(S, data, last))
  {
    hide Chain, SignBytes, Low, LastSign, LastOf, RecoverAll, Packed, Signs, Mask;
    var st' := SignState(st.t, st.q, last);
    FrameDecodes(S, data, st', t, q, last, qs);
    var ts := Chain(t, q, SignBytes(S, data, last), qs);
    var r, r' := DecodeSigns(S, st, Signs(S, ts)), DecodeSigns(S, st', Signs(S, ts));
    var rs := RecoverAll(st.t, st.q, Packed(S, Signs(S, ts)), Mask(FrameSize(S)));
    OnlyFirst(S, rs, st.last, last);
    assert data[..S][1..] == data[1..S];
  }

  lemma OnlyFirst(S: nat, rs: seq<Recovered>, a: u1, b: u1)
    requires 3 <= S <= 5 && |rs| == Subframes(S)
    ensures DataBits(S, rs, a)[1..] == DataBits(S, rs, b)[1..]
  {
    hide Bit, Xor;
  }
}
