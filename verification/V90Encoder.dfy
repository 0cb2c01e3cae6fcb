/** The mapping-frame encoder: code ring, differential signs and trellis, updated in place. */
module V90Encoder {
  import opened Bits
  import opened V90Tables
  import opened V90Radix
  import opened V90Signs
  import opened V90Slicer
  import opened V90Stream
  import opened V90Trellis

  const RING: nat := 32   // UCODE_BUF_SIZE

  // ----- the rings as windows on the stream -----

  lemma ModStep(n: int, k: int)
    ensures (n % RING + k) % RING == (n + k) % RING
  {
    var q := n / RING;
    assert n + k == (n % RING + k) + RING * q;
    ModShift(n % RING + k, q);
  }

  lemma ModShift(a: int, q: int)
    ensures (a + RING * q) % RING == a % RING
  {
  }

  lemma ModApart(a: int, b: int)
    requires 0 < b - a < RING
    ensures a % RING != b % RING
  {
  }

  /** The ring holds the last 32 codes before position n. */
  ghost predicate CodesHeld(ring: seq<nat>, p: Params, frames: seq<seq<u1>>, n: nat)
    requires Sound(p) && FramesOk(p, frames) && |ring| == RING && n <= 6 * |frames|
  {
    forall pos: int {:trigger CodeAt(p, frames, pos)} :: n - RING <= pos < n ==>
      ring[pos % RING] == CodeAt(p, frames, pos)
  }

  lemma CodeStored(ring: seq<nat>, p: Params, frames: seq<seq<u1>>, n: nat, u: nat)
    requires Sound(p) && FramesOk(p, frames) && |ring| == RING && n < 6 * |frames|
    requires CodesHeld(ring, p, frames, n) && u == CodeAt(p, frames, n)
    ensures CodesHeld(ring[n % RING := u], p, frames, n + 1)
  {
    hide CodeAt;
    forall pos: int {:trigger CodeAt(p, frames, pos)} | n + 1 - RING <= pos < n + 1
      ensures ring[n % RING := u][pos % RING] == CodeAt(p, frames, pos)
    {
      if pos < n { ModApart(pos, n); }
    }
  }

  /** Another frame does not change the codes before it. */
  lemma CodesKept(ring: seq<nat>, p: Params, frames: seq<seq<u1>>, data: seq<u1>)
    requires Sound(p) && FramesOk(p, frames) && FrameOk(p, data) && |ring| == RING
    requires CodesHeld(ring, p, frames, 6 * |frames|)
    ensures FramesOk(p, frames + [data]) && CodesHeld(ring, p, frames + [data], 6 * |frames|)
  {
    hide Code;
    var more := frames + [data];
    forall pos: int {:trigger CodeAt(p, more, pos)} | 6 * |frames| - RING <= pos < 6 * |frames|
      ensures ring[pos % RING] == CodeAt(p, more, pos)
    {
      assert CodeAt(p, frames, pos) == CodeAt(p, more, pos);
    }
  }

  /** The ring holds the sign bytes of the ld shaping frames before frame m. */
  ghost predicate BytesHeld(ring: seq<bv8>, p: Params, frames: seq<seq<u1>>, m: nat, count: nat)
    requires 3 <= p.S <= 5 && FramesOk(p, frames) && |ring| == RING && m <= Subframes(p.S) * |frames|
  {
    forall s: int {:trigger ByteAt(p, frames, s)} :: m - count <= s < m ==>
      ring[(FrameSize(p.S) * s) % RING] == ByteAt(p, frames, s)
  }

  lemma PlacesApart(fs: nat, s: int, m: int)
    requires 2 <= fs <= 6 && 0 < m - s <= 3
    ensures (fs * s) % RING != (fs * m) % RING
  {
    var d := m - s;
    assert fs * m == fs * s + fs * d;
    assert 0 < fs * d <= 18;
    ModApart(fs * s, fs * m);
  }

  lemma ByteStored(ring: seq<bv8>, p: Params, frames: seq<seq<u1>>, m: nat)
    requires 3 <= p.S <= 5 && p.ld <= 3 && FramesOk(p, frames) && |ring| == RING && m < Subframes(p.S) * |frames|
    requires BytesHeld(ring, p, frames, m, p.ld)
    ensures BytesHeld(ring[(FrameSize(p.S) * m) % RING := ByteAt(p, frames, m)], p, frames, m + 1, p.ld + 1)
  {
    hide ByteAt;
    var place := (FrameSize(p.S) * m) % RING;
    forall s: int {:trigger ByteAt(p, frames, s)} | m - p.ld <= s < m + 1
      ensures ring[place := ByteAt(p, frames, m)][(FrameSize(p.S) * s) % RING] == ByteAt(p, frames, s)
    {
      if s < m { PlacesApart(FrameSize(p.S), s, m); }
    }
  }

  lemma ByteKept(p: Params, frames: seq<seq<u1>>, data: seq<u1>, s: int)
    requires 3 <= p.S <= 5 && FramesOk(p, frames) && FrameOk(p, data) && s < Subframes(p.S) * |frames|
    ensures FramesOk(p, frames + [data]) && s < Subframes(p.S) * |frames + [data]|
    ensures ByteAt(p, frames + [data], s) == ByteAt(p, frames, s)
  {
    hide SignBytes;
    FrameFits(Subframes(p.S), |frames|, |frames| + 1);
    if s >= 0 { LastKept(p, frames, data, s / Subframes(p.S)); }
  }

  lemma {:induction false} LastKept(p: Params, frames: seq<seq<u1>>, data: seq<u1>, n: nat)
    requires 3 <= p.S <= 6 && FramesOk(p, frames) && FrameOk(p, data) && n <= |frames|
    ensures FramesOk(p, frames + [data]) && LastBefore(p, frames + [data], n) == LastBefore(p, frames, n)
  {
    if n != 0 { LastKept(p, frames, data, n - 1); }
  }

  lemma {:induction false} SignsKept(p: Params, frames: seq<seq<u1>>, data: seq<u1>, qs: seq<u1>, s: nat)
    requires 3 <= p.S <= 5 && FramesOk(p, frames) && FrameOk(p, data)
    requires s <= |qs| <= Subframes(p.S) * |frames|
    ensures FramesOk(p, frames + [data]) && |qs| <= Subframes(p.S) * |frames + [data]|
    ensures SignsBefore(p, frames + [data], qs, s) == SignsBefore(p, frames, qs, s)
  {
    hide ByteAt, NextSigns;
    FrameFits(Subframes(p.S), |frames|, |frames| + 1);
    if s != 0 {
      SignsKept(p, frames, data, qs, s - 1);
      ByteKept(p, frames, data, s - 1 - p.ld);
    }
  }

  /** Later states do not change the sign bytes before them. */
  lemma {:induction false} SignsStable(p: Params, frames: seq<seq<u1>>, qs: seq<u1>, more: seq<u1>, s: nat)
    requires 3 <= p.S <= 5 && FramesOk(p, frames)
    requires qs <= more && s <= |qs| && |more| <= Subframes(p.S) * |frames|
    ensures SignsBefore(p, frames, more, s) == SignsBefore(p, frames, qs, s)
  {
    hide ByteAt, NextSigns;
    if s != 0 { SignsStable(p, frames, qs, more, s - 1); }
  }

  /** Where shaping frame m begins in the rings. */
  function Place(S: nat, m: int): nat
    requires 3 <= S <= 6
  {
    (FrameSize(S) * m) % RING
  }

  predicate RingOk(codes: seq<nat>) {
    |codes| == RING && forall k :: 0 <= k < RING ==> codes[k] < CODES
  }

  /** Levels of a shaping frame in the ring. */
  function RingLevels(alaw: bool, codes: seq<nat>, ptr: int, fs: nat): (r: seq<nat>)
    requires RingOk(codes)
    ensures |r| == fs && forall i :: 0 <= i < fs ==> r[i] == Levels(alaw)[codes[(ptr + i) % RING]]
  {
    seq(fs, i requires 0 <= i < fs => Levels(alaw)[codes[(ptr + i) % RING]])
  }

  /** What the shaper looks at from ring position first on: ld + 1 shaping frames. */
  function Ahead(p: Params, c: Coefficients, start: Path, q: u1, codes: seq<nat>, bytes: seq<bv8>, first: int,
                 fs: nat): (tr: Trellis)
    requires RingOk(codes) && |bytes| == RING && fs <= 6 && -0x8000 <= start.w < 0x8000
    ensures TrellisOk(tr) && tr.c == c && tr.start == start && tr.q == q && |tr.bytes| == p.ld + 1
  {
    hide RingLevels, Levels;
    Trellis(c, start, q,
            seq(p.ld + 1, d requires 0 <= d <= p.ld => bytes[(first + fs * d) % RING]),
            seq(p.ld + 1, d requires 0 <= d <= p.ld => RingLevels(p.alaw, codes, first + fs * d, fs)))
  }

  lemma AheadAt(p: Params, c: Coefficients, start: Path, q: u1, codes: seq<nat>, bytes: seq<bv8>, first: int, fs: nat,
                d: nat)
    requires RingOk(codes) && |bytes| == RING && fs <= 6 && -0x8000 <= start.w < 0x8000 && d <= p.ld
    ensures var tr := Ahead(p, c, start, q, codes, bytes, first, fs);
      tr.bytes[d] == bytes[(first + fs * d) % RING] && tr.levels[d] == RingLevels(p.alaw, codes, first + fs * d, fs)
  {
    hide RingLevels;
  }

  /** The trellis memory holds the survivors at depths 1 to depth. */
  ghost predicate SurvivorsIn(mem: array2<Path>, tr: Trellis, depth: nat)
    requires mem.Length0 == 2 && mem.Length1 == 6 && TrellisOk(tr) && depth <= |tr.bytes| && depth < 6
    reads mem
  {
    forall d {:trigger mem[0, d]} {:trigger mem[1, d]} :: 1 <= d <= depth ==>
      mem[0, d] == Survivor(tr, d, 0) && mem[1, d] == Survivor(tr, d, 1)
  }

  // ----- the encoder -----

  class V90EncodeState {
    const p: Params
    const c: Coefficients
    const ucode: array<nat>
    const pp: array<bv8>
    var ucodePtr: nat
    var lastSign: u1
    var t: bv8
    var x: int
    var y: int
    var v: int
    var Q: u1
    ghost var frames: seq<seq<u1>>   // data encoded so far
    ghost var qs: seq<u1>            // states chosen so far

    ghost predicate Shape()
      reads this, ucode
    {
      Sound(p) && RingOk(ucode[..]) && pp.Length == RING && ucodePtr < RING && ucode as object != pp
    }

    /** Run a signed shaping frame through the filter. */
    method ApplyFilter(ptr: int, fs: nat, sg: bv8, m: Memory) returns (r: Memory)
      requires Shape() && fs <= 6
      ensures r == Filtered(c, RingLevels(p.alaw, ucode[..], ptr, fs), sg, fs, m)
    {
      hide Levels, FilterStep, Bit, Sound, RingLevels, Signed;
      ghost var levels := RingLevels(p.alaw, ucode[..], ptr, fs);
      var x1, y1, v1, w1 := m.x, m.y, m.v, m.w;
      var i := 0;
      while i < fs
        invariant 0 <= i <= fs
        invariant Memory(x1, y1, v1, w1) == Filtered(c, levels, sg, i, m)
      {
        var level := Levels(p.alaw)[ucode[(ptr + i) % RING]];
        assert level == levels[i];
        var next := FilterStep(c, Memory(x1, y1, v1, w1), Signed(Bit(sg, i), level));
        x1, y1, v1, w1 := next.x, next.y, next.v, next.w;
        i := i + 1;
      }
      r := Memory(x1, y1, v1, w1);
    }

    /** The best transition into a trellis state. */
    method BestTransition(ghost tr: Trellis, mem: array2<Path>, depth: nat, state: u1, ptr: int, fs: nat)
      returns (best: Path)
      requires Shape() && fs <= 6 && TrellisOk(tr) && depth < |tr.bytes| && tr.c == c && tr.q == Q
      requires tr.bytes[depth] == pp[ptr % RING] && tr.levels[depth] == RingLevels(p.alaw, ucode[..], ptr, fs)
      requires mem.Length0 == 2 && depth < mem.Length1
      requires depth == 0 ==> mem[Num(Q), 0] == tr.start
      requires depth > 0 ==> mem[0, depth] == Survivor(tr, depth, 0) && mem[1, depth] == Survivor(tr, depth, 1)
      ensures best == Winner(tr, depth, state)
    {
      hide RingLevels, Filtered, NextSigns, Sound, Levels;
      best := Path(0, 0, 0, 0, INT_MAX, 0);
      var lstate := if depth == 0 then Num(Q) else 0;
      var more := true;
      while more
        invariant more ==> lstate < 2
        invariant more && (depth == 0 || lstate == 0) ==> best.w == INT_MAX
        invariant depth == 0 && more ==> lstate == Num(Q)
        invariant depth > 0 && lstate == 1 ==> more && best == Extended(tr, depth, Survivor(tr, depth, 0), 0, state)
        invariant !more ==> best == Winner(tr, depth, state)
        decreases more, 2 - lstate
      {
        var from: u1 := if lstate == 0 then 0 else 1;
        var m := mem[lstate, depth];
        var sg := NextSigns(m.t, pp[ptr % RING], from, state);
        var r := ApplyFilter(ptr, fs, sg, Memory(m.x, m.y, m.v, m.w));
        ghost var path := Extended(tr, depth, m, from, state);
        if r.w < best.w {
          best := Path(sg, r.x, r.y, r.v, r.w, from);
        }
        lstate := lstate + 1;
        more := lstate < 2 && depth != 0;
      }
    }
  
    /** The paths into both states after frame `depth`. */
    method Advance(ghost tr: Trellis, mem: array2<Path>, depth: nat, ptr: int, fs: nat)
      requires Shape() && fs <= 6 && TrellisOk(tr) && depth < |tr.bytes| && tr.c == c && tr.q == Q
      requires tr.bytes[depth] == pp[ptr % RING] && tr.levels[depth] == RingLevels(p.alaw, ucode[..], ptr, fs)
      requires mem.Length0 == 2 && depth + 1 < mem.Length1
      requires depth == 0 ==> mem[Num(Q), 0] == tr.start
      requires depth > 0 ==> mem[0, depth] == Survivor(tr, depth, 0) && mem[1, depth] == Survivor(tr, depth, 1)
      modifies mem
      ensures mem[0, depth + 1] == Survivor(tr, depth + 1, 0) && mem[1, depth + 1] == Survivor(tr, depth + 1, 1)
      ensures forall s, d :: 0 <= s < 2 && 0 <= d <= depth ==> mem[s, d] == old(mem[s, d])
    {
      hide RingLevels, Sound, Winner, RingOk;
      var best := BestTransition(tr, mem, depth, 0, ptr, fs);
      mem[0, depth + 1] := Stored(best);
      best := BestTransition(tr, mem, depth, 1, ptr, fs);
      mem[1, depth + 1] := Stored(best);
    }

    /** The forward pass: survivors at every depth. */
    method FillTrellis(ghost tr: Trellis, mem: array2<Path>, first: int, fs: nat)
      requires Shape() && fs <= 6 && mem.Length0 == 2 && mem.Length1 == 6 && mem[Num(Q), 0] == tr.start
      requires -0x8000 <= tr.start.w < 0x8000 && tr == Ahead(p, c, tr.start, Q, ucode[..], pp[..], first, fs)
      modifies mem
      ensures SurvivorsIn(mem, tr, p.ld + 1)
    {
      hide RingLevels, RingOk, Survivor, Ahead;
      ghost var codes, bytes := ucode[..], pp[..];
      var depth := 0;
      while depth <= p.ld
        invariant 0 <= depth <= p.ld + 1 && ucode[..] == codes && pp[..] == bytes
        invariant depth == 0 ==> mem[Num(Q), 0] == tr.start
        invariant SurvivorsIn(mem, tr, depth)
      {
        AheadAt(p, c, tr.start, Q, codes, bytes, first, fs, depth);
        Advance(tr, mem, depth, first + fs * depth, fs);
        depth := depth + 1;
      }
    }

    /** The backward pass. */
    method TraceBack(ghost tr: Trellis, mem: array2<Path>) returns (state: u1)
      requires p.ld <= 3 && TrellisOk(tr) && |tr.bytes| == p.ld + 1
      requires mem.Length0 == 2 && mem.Length1 == 6 && SurvivorsIn(mem, tr, p.ld + 1)
      ensures state == Chosen(tr)
    {
      hide Survivor;
      state := if mem[1, p.ld + 1].w < mem[0, p.ld + 1].w then 1 else 0;
      var depth := p.ld;
      while depth > 0
        invariant 0 <= depth <= p.ld
        invariant Traced(tr, depth, state) == Chosen(tr)
      {
        state := mem[Num(state), depth].from;
        depth := depth - 1;
      }
    }

    /** The state chosen, and the first step of the path to it. */
    method SearchTrellis(ghost tr: Trellis, first: int, fs: nat) returns (state: u1, path: Path)
      requires Shape() && fs <= 6 && tr == Ahead(p, c, Path(t, x, y, v, 0, 0), Q, ucode[..], pp[..], first, fs)
      ensures state == Chosen(tr) && path == Survivor(tr, 1, state)
    {
      hide RingLevels, RingOk, Chosen, Ahead, Survivor;
      var mem := new Path[2, 6];
      mem[Num(Q), 0] := Path(t, x, y, v, 0, 0);
      FillTrellis(tr, mem, first, fs);
      state := TraceBack(tr, mem);
      path := mem[Num(state), 1];
    }

    /** Choose the signs of the shaping frame ld frames back. */
    method SelectBestSigns(fs: nat, pv: bv8) returns (ghost tr: Trellis)
      requires Shape() && fs <= 6
      modifies this`ucodePtr, this`t, this`x, this`y, this`v, this`Q, pp
      ensures Shape() && ucode[..] == old(ucode[..])
      ensures pp[..] == old(pp[..])[old(ucodePtr) := pv] && ucodePtr == (old(ucodePtr) + fs) % RING
      ensures tr == Ahead(p, c, Path(old(t), old(x), old(y), old(v), 0, 0), old(Q), ucode[..], pp[..],
                          old(ucodePtr) - fs * p.ld, fs)
      ensures Q == Chosen(tr) && x == Survivor(tr, 1, Q).x && y == Survivor(tr, 1, Q).y && v == Survivor(tr, 1, Q).v
      ensures t == NextSigns(old(t), pp[(old(ucodePtr) - fs * p.ld) % RING], old(Q), Q)
    {
      hide RingLevels, RingOk, NextSigns, Chosen, Ahead, Survivor;
      ghost var codes := ucode[..];
      pp[ucodePtr] := pv;
      assert ucode[..] == codes;
      var first := ucodePtr - fs * p.ld;
      tr := Ahead(p, c, Path(t, x, y, v, 0, 0), Q, codes, pp[..], first, fs);
      var state, path := SearchTrellis(tr, first, fs);
      FirstSigns(tr, state);
      AheadAt(p, c, Path(t, x, y, v, 0, 0), Q, codes, pp[..], first, fs, 0);
      Q, t, x, y, v := state, path.t, path.x, path.y, path.v;
      ucodePtr := (ucodePtr + fs) % RING;
    }

    /** The encoder's state stands for the data encoded and the states chosen so far. */
    ghost predicate Valid()
      reads this, ucode, pp
    {
      && Shape() && FramesOk(p, frames) && StatesOk(p, frames, qs)
      && ucodePtr == (6 * |frames|) % RING && CodesHeld(ucode[..], p, frames, 6 * |frames|)
      && lastSign == LastBefore(p, frames, |frames|)
      && (p.S <= 5 ==> Shaping())
    }

    ghost predicate Shaping()
      requires Shape() && p.S <= 5 && FramesOk(p, frames) && |qs| <= Subframes(p.S) * |frames|
      reads this, ucode, pp
    {
      && BytesHeld(pp[..], p, frames, |qs|, p.ld)
      && t == SignsBefore(p, frames, qs, |qs|) && Q == StateBefore(qs, |qs|)
    }

    constructor (p: Params, c: Coefficients)
      requires Sound(p)
      ensures Valid() && this.p == p && this.c == c && frames == [] && qs == [] && fresh(ucode) && fresh(pp)
    {
      this.p, this.c := p, c;
      ucode := new nat[RING](_ => 0);
      pp := new bv8[RING](_ => 0);
      ucodePtr, lastSign, t, x, y, v, Q := 0, 0, 0, 0, 0, 0, 0;
      frames, qs := [], [];
      new;
      assert RingOk(ucode[..]) && ucode as object != pp;
      assert Shape() && CodesHeld(ucode[..], p, frames, 0);
      assert p.S <= 5 ==> BytesHeld(pp[..], p, frames, 0, p.ld);
      assert p.S <= 5 ==> Shaping();
      assert StatesOk(p, frames, qs) && lastSign == LastBefore(p, frames, 0);
    }

    /** The K modulus bits of a frame as a number. */
    method ModulusWord(data: seq<u1>) returns (w: nat)
      requires FrameOk(p, data)
      ensures w == Word(data[p.S..])
    {
      hide Word, Pow2;
      w := 0;
      var i, power := 0, 1;
      WordOfNone();
      while i < p.K
        invariant 0 <= i <= p.K && w == Word(data[p.S..p.S + i]) && power == Pow2(i)
      {
        WordSnoc(data[p.S..p.S + i], data[p.S + i]);
        assert data[p.S..p.S + i + 1] == data[p.S..p.S + i] + [data[p.S + i]];
        w := w + Num(data[p.S + i]) * power;
        PowerStep(i);
        power := 2 * power;
        i := i + 1;
      }
      assert data[p.S..p.S + p.K] == data[p.S..];
    }

    /** Modulus coding: six codes into the ring. */
    method PutCodes(data: seq<u1>)
      requires Shape() && FramesOk(p, frames) && FrameOk(p, data)
      requires ucodePtr == (6 * |frames|) % RING && CodesHeld(ucode[..], p, frames, 6 * |frames|)
      modifies ucode
      ensures Shape() && pp[..] == old(pp[..])
      ensures FramesOk(p, frames + [data]) && CodesHeld(ucode[..], p, frames + [data], 6 * |frames| + 6)
    {
      hide CodesHeld, CodeAt, Digits, Word;
      var w := ModulusWord(data);
      ghost var more, n, ds := frames + [data], 6 * |frames|, Digits(w, p.M);
      CodesKept(ucode[..], p, frames, data);
      assert p.M[0..] == p.M && ds[0..] == ds;
      var i := 0;
      while i < 6
        invariant 0 <= i <= 6 && Shape() && pp[..] == old(pp[..])
        invariant Digits(w, p.M[i..]) == ds[i..]
        invariant CodesHeld(ucode[..], p, more, n + i)
      {
        DigitsStep(w, p.M, i, ds);
        var k := w % p.M[i];
        w := w / p.M[i];
        ModStep(n, i);
        CodeOfNew(p, frames, data, i);
        CodeStored(ucode[..], p, more, n + i, p.codes[i][k]);
        ucode[(ucodePtr + i) % RING] := p.codes[i][k];
        i := i + 1;
      }
    }
  
    /** One shaping frame: its sign byte in, that of the frame ld before it out. */
    method ShapeOne(ghost m: nat, pv: bv8)
      requires Shape() && FramesOk(p, frames) && p.S <= 5 && m < Subframes(p.S) * |frames| && |qs| == m && Shaping()
      requires ucodePtr == Place(p.S, m) && pv == ByteAt(p, frames, m)
      modifies this`ucodePtr, this`t, this`x, this`y, this`v, this`Q, this`qs, pp
      ensures qs == old(qs) + [Q] && Shape() && Shaping() && ucode[..] == old(ucode[..])
      ensures ucodePtr == Place(p.S, m + 1)
      ensures t == SignsBefore(p, frames, qs, m + 1)
    {
      hide ByteAt, NextSigns, Chosen, Survivor, SignsBefore, BytesHeld, RingOk, Ahead;
      var fs := FrameSize(p.S);
      ghost var bytes := pp[..];
      ByteStored(bytes, p, frames, m);
      Places(fs, m, p.ld);
      ghost var tr := SelectBestSigns(fs, pv);
      ByteBack(pp[..], p, frames, m);
      qs := qs + [Q];
      SignsStep(p, frames, old(qs), Q);
    }
  
    /** The shaping frames of one mapping frame. */
    method ShapeAll(ghost base: nat, pv: seq<bv8>) returns (ts: seq<bv8>)
      requires Shape() && FramesOk(p, frames) && p.S <= 5 && base + |pv| <= Subframes(p.S) * |frames|
      requires |qs| == base && Shaping() && ucodePtr == Place(p.S, base)
      requires forall k :: 0 <= k < |pv| ==> pv[k] == ByteAt(p, frames, base + k)
      modifies this`ucodePtr, this`t, this`x, this`y, this`v, this`Q, this`qs, pp
      ensures |qs| == base + |pv| && old(qs) <= qs && Shape() && Shaping() && ucode[..] == old(ucode[..])
      ensures ucodePtr == Place(p.S, base + |pv|)
      ensures |ts| == |pv| && forall k {:trigger ts[k]} :: 0 <= k < |ts| ==>
        ts[k] == SignsBefore(p, frames, qs, base + k + 1)
    {
      hide ByteAt, SignsBefore, BytesHeld, RingOk, Sound, Place, NextSigns;
      ghost var codes := ucode[..];
      ts := [];
      var i := 0;
      while i < |pv|
        invariant 0 <= i <= |pv| && |qs| == base + i && |ts| == i && old(qs) <= qs
        invariant Shape() && Shaping() && ucode[..] == codes
        invariant ucodePtr == Place(p.S, base + i)
        invariant forall k :: 0 <= k < i ==> ts[k] == SignsBefore(p, frames, qs, base + k + 1)
      {
        ghost var states := qs;
        ShapeOne(base + i, pv[i]);
        forall k | 0 <= k < i ensures ts[k] == SignsBefore(p, frames, qs, base + k + 1) {
          SignsStable(p, frames, states, qs, base + k + 1);
        }
        ts := ts + [t];
        i := i + 1;
      }
    }

    /** The signs emitted with the frame just stored. */
    method ShapeFrame(data: seq<u1>) returns (g: seq<u1>)
      requires Shape() && FramesOk(p, frames) && p.S <= 5 && frames != [] && data == frames[|frames| - 1]
      requires |qs| == Subframes(p.S) * (|frames| - 1) <= Subframes(p.S) * |frames| && Shaping()
      requires ucodePtr == (6 * (|frames| - 1)) % RING && lastSign == LastBefore(p, frames, |frames| - 1)
      modifies this`ucodePtr, this`t, this`x, this`y, this`v, this`Q, this`qs, this`lastSign, pp
      ensures StatesOk(p, frames, qs) && Shape() && Shaping() && ucode[..] == old(ucode[..]) && old(qs) <= qs
      ensures ucodePtr == (6 * |frames|) % RING && lastSign == LastBefore(p, frames, |frames|)
      ensures g == FrameSigns(p, frames, qs, |frames| - 1)
    {
      hide ByteAt, SignsBefore, BytesHeld, RingOk, Sound, SignBytes, LastSign, FrameSigns, Signs, Place;
      var pv := SignBytes(p.S, data, lastSign);
      lastSign := LastSign(p.S, data, lastSign);
      ghost var n, base := |frames| - 1, Subframes(p.S) * (|frames| - 1);
      FrameFits(Subframes(p.S), n, |frames|);
      SamePlace(p.S, n);
      SamePlace(p.S, n + 1);
      forall k | 0 <= k < |pv| ensures pv[k] == ByteAt(p, frames, base + k) {
        NewByte(p, frames, k);
      }
      var ts := ShapeAll(base, pv);
      g := Signs(p.S, ts);
      GatherSigns(p, frames, qs, ts);
    }
  
    /** The signs of a frame without redundancy. */
    method PutPlain(data: seq<u1>) returns (g: seq<u1>)
      requires Shape() && |data| >= 6
      modifies this`lastSign, this`ucodePtr
      ensures g == PlainSigns(data, old(lastSign)) && lastSign == g[5]
      ensures ucodePtr == (old(ucodePtr) + 6) % RING
    {
      hide PlainSigns, Xor;
      ghost var last, ptr := lastSign, ucodePtr;
      ghost var all := PlainSigns(data, last);
      var l := lastSign;
      g := [];
      var i := 0;
      while i < 6
        invariant 0 <= i <= 6 && |g| == i && forall k :: 0 <= k < i ==> g[k] == all[k]
        invariant l == (if i == 0 then last else all[i - 1]) && ucodePtr == ptr
      {
        PlainStep(data, last, i);
        l := Xor(data[i], l);
        g := g + [l];
        i := i + 1;
      }
      assert g == all;
      lastSign := l;
      ucodePtr := (ucodePtr + 6) % RING;
    }

    /** Write six signed levels, ld shaping frames behind the present position. */
    method PutSamples(samples: array<int>, g: seq<u1>)
      requires Shape() && FramesOk(p, frames) && frames != [] && StatesOk(p, frames, qs)
      requires samples.Length == 6 && |g| == 6
      requires CodesHeld(ucode[..], p, frames, 6 * |frames|) && ucodePtr == (6 * |frames|) % RING
      requires g == FrameSigns(p, frames, qs, |frames| - 1) && samples as object != ucode
      modifies samples
      ensures samples[..] == Emitted(p, frames, qs, |frames| - 1)
    {
      hide Levels, FrameSigns, CodeAt, Signed;
      ghost var codes, n, back := ucode[..], 6 * |frames|, 6 + FrameSize(p.S) * p.ld;
      var place := (ucodePtr - 6 - FrameSize(p.S) * p.ld) % RING;
      ModStep(n, -back);
      assert back <= 24;
      var i := 0;
      while i < 6
        invariant 0 <= i <= 6 && place == (n - back + i) % RING && ucode[..] == codes
        invariant forall k :: 0 <= k < i ==> samples[k] == Signed(g[k], LevelAt(p, frames, |frames| - 1, k))
      {
        ghost var u := CodeAt(p, frames, n - back + i);
        assert codes[place] == u;
        samples[i] := Signed(g[i], Levels(p.alaw)[ucode[place]]);
        ModStep(n - back + i, 1);
        place := (place + 1) % RING;
        i := i + 1;
      }
    }

    /** Encode S + K data bits as six samples. */
    method EncodeFrame(samples: array<int>, data: seq<u1>)
      requires Valid() && FrameOk(p, data) && samples.Length == 6
      requires samples as object != ucode && samples as object != pp
      modifies this`ucodePtr, this`t, this`x, this`y, this`v, this`Q, this`qs, this`lastSign, this`frames
      modifies ucode, pp, samples
      ensures Valid() && frames == old(frames) + [data] && old(qs) <= qs
      ensures samples[..] == Emitted(p, frames, qs, |frames| - 1)
    {
      hide CodeAt, ByteAt, SignsBefore, CodesHeld, BytesHeld, PlainSigns, LastBefore, Emitted, FrameSigns, RingOk;
      hide Sound;
      PutCodes(data);
      ghost var before := frames;
      LastKept(p, before, data, |before|);
      if p.S == 6 { assert qs == []; } else { StillShaping(p, pp[..], before, data, qs); }
      frames := frames + [data];
      var g;
      if p.S == 6 {
        g := PutPlain(data);
        PlainLast(p, before, data);
        ModStep(6 * |before|, 6);
      } else {
        FrameFits(Subframes(p.S), |before|, |frames|);
        g := ShapeFrame(data);
      }
      PutSamples(samples, g);
    }
  }

  lemma PlainStep(data: seq<u1>, last: u1, i: nat)
    requires |data| >= 6 && i < 6
    ensures PlainSigns(data, last)[i] == Xor(data[i], if i == 0 then last else PlainSigns(data, last)[i - 1])
  {
    hide Xor;
  }

  lemma PlainLast(p: Params, frames: seq<seq<u1>>, data: seq<u1>)
    requires p.S == 6 && FramesOk(p, frames) && FrameOk(p, data)
    ensures FramesOk(p, frames + [data])
    ensures var g := PlainSigns(data, LastBefore(p, frames, |frames|));
      FrameSigns(p, frames + [data], [], |frames|) == g && g[5] == LastBefore(p, frames + [data], |frames| + 1)
  {
    LastKept(p, frames, data, |frames|);
    hide Xor, LastBefore;
    LastStep(p, frames + [data], |frames|);
  }

  lemma LastStep(p: Params, frames: seq<seq<u1>>, n: nat)
    requires 3 <= p.S <= 6 && FramesOk(p, frames) && n < |frames|
    ensures LastBefore(p, frames, n + 1) == LastSign(p.S, frames[n], LastBefore(p, frames, n))
  {
  }

  lemma StillShaping(p: Params, ring: seq<bv8>, frames: seq<seq<u1>>, data: seq<u1>, qs: seq<u1>)
    requires 3 <= p.S <= 5 && FramesOk(p, frames) && FrameOk(p, data) && |ring| == RING
    requires |qs| == Subframes(p.S) * |frames| && BytesHeld(ring, p, frames, |qs|, p.ld)
    ensures FramesOk(p, frames + [data]) && |qs| <= Subframes(p.S) * |frames + [data]|
    ensures BytesHeld(ring, p, frames + [data], |qs|, p.ld)
    ensures SignsBefore(p, frames + [data], qs, |qs|) == SignsBefore(p, frames, qs, |qs|)
  {
    hide ByteAt;
    FrameFits(Subframes(p.S), |frames|, |frames| + 1);
    SignsKept(p, frames, data, qs, |qs|);
    var more := frames + [data];
    forall s: int {:trigger ByteAt(p, more, s)} | |qs| - p.ld <= s < |qs|
      ensures ring[(FrameSize(p.S) * s) % RING] == ByteAt(p, more, s)
    {
      ByteKept(p, frames, data, s);
    }
  }

  lemma GatherSigns(p: Params, frames: seq<seq<u1>>, qs: seq<u1>, ts: seq<bv8>)
    requires FramesOk(p, frames) && StatesOk(p, frames, qs) && p.S <= 5 && frames != [] && |ts| == Subframes(p.S)
    requires Subframes(p.S) * (|frames| - 1) + |ts| <= |qs|
    requires forall k {:trigger ts[k]} :: 0 <= k < |ts| ==>
      ts[k] == SignsBefore(p, frames, qs, Subframes(p.S) * (|frames| - 1) + k + 1)
    ensures Signs(p.S, ts) == FrameSigns(p, frames, qs, |frames| - 1)
  {
    hide SignsBefore, Signs, FramesOk;
    var nb, n := Subframes(p.S), |frames| - 1;
    FrameFits(nb, n, |frames|);
    var list := FrameBytes(p, frames, qs, n);
    forall k | 0 <= k < nb ensures list[k] == ts[k] {}
    assert list == ts;
  }

  lemma SamePlace(S: nat, n: nat)
    requires 3 <= S <= 5
    ensures Place(S, Subframes(S) * n) == (6 * n) % RING
  {
    assert FrameSize(S) * (Subframes(S) * n) == 6 * n;
  }

  lemma NewByte(p: Params, frames: seq<seq<u1>>, k: nat)
    requires 3 <= p.S <= 5 && FramesOk(p, frames) && frames != [] && k < Subframes(p.S)
    ensures var n := |frames| - 1; var nb := Subframes(p.S);
      && nb * n + k < nb * |frames|
      && ByteAt(p, frames, nb * n + k) == SignBytes(p.S, frames[n], LastBefore(p, frames, n))[k]
  {
    hide SignBytes, LastBefore;
    var n, nb := |frames| - 1, Subframes(p.S);
    FrameFits(nb, n, |frames|);
    DivModUnique(nb * n + k, nb, n, k);
  }

  lemma Places(fs: nat, m: nat, ld: nat)
    ensures ((fs * m) % RING - fs * ld) % RING == (fs * (m - ld)) % RING
    ensures ((fs * m) % RING + fs) % RING == (fs * (m + 1)) % RING
  {
    ModStep(fs * m, -(fs * ld));
    ModStep(fs * m, fs);
    assert fs * (m - ld) == fs * m - fs * ld && fs * (m + 1) == fs * m + fs;
  }

  lemma ByteBack(ring: seq<bv8>, p: Params, frames: seq<seq<u1>>, m: nat)
    requires 3 <= p.S <= 5 && FramesOk(p, frames) && |ring| == RING && m < Subframes(p.S) * |frames|
    requires BytesHeld(ring, p, frames, m + 1, p.ld + 1)
    ensures BytesHeld(ring, p, frames, m + 1, p.ld)
    ensures ring[(FrameSize(p.S) * (m - p.ld)) % RING] == ByteAt(p, frames, m - p.ld)
  {
    hide ByteAt;
    var b := ByteAt(p, frames, m - p.ld);
  }

  lemma SignsStep(p: Params, frames: seq<seq<u1>>, qs: seq<u1>, q: u1)
    requires 3 <= p.S <= 5 && FramesOk(p, frames) && |qs| < Subframes(p.S) * |frames|
    ensures SignsBefore(p, frames, qs + [q], |qs| + 1)
         == NextSigns(SignsBefore(p, frames, qs, |qs|), ByteAt(p, frames, |qs| - p.ld), StateBefore(qs, |qs|), q)
  {
    hide ByteAt, NextSigns;
    SignsStable(p, frames, qs, qs + [q], |qs|);
  }

  lemma CodeOfNew(p: Params, frames: seq<seq<u1>>, data: seq<u1>, i: nat)
    requires Sound(p) && FramesOk(p, frames) && FrameOk(p, data) && i < 6
    ensures FramesOk(p, frames + [data]) && CodeAt(p, frames + [data], 6 * |frames| + i) == Code(p, data, i)
  {
    hide Code;
    assert (6 * |frames| + i) / 6 == |frames| && (6 * |frames| + i) % 6 == i;
  }

  lemma WordOfNone()
    ensures Word([]) == 0 && Pow2(0) == 1
  {
  }

  lemma PowerStep(i: nat)
    ensures Pow2(i + 1) == 2 * Pow2(i)
  {
  }
}
