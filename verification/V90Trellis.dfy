/** Spectral shaping: the filter, the trellis over the frames ahead, and the state it chooses. */
module V90Trellis {
  import opened V90Radix
  import opened V90Signs
  import opened V90Stream

  const INT_MAX: int := 0x7fff_ffff

  /** Two's complement reduction of 32-bit and 16-bit values. */
  function Wrap32(v: int): (r: int)
    ensures -0x8000_0000 <= r <= INT_MAX
    ensures -0x8000_0000 <= v <= INT_MAX ==> r == v
  {
    (v + 0x8000_0000) % 0x1_0000_0000 - 0x8000_0000
  }

  function Short(v: int): (r: int)
    ensures -0x8000 <= r <= 0x7fff
    ensures -0x8000 <= v <= 0x7fff ==> r == v
  {
    (v + 0x8000) % 0x1_0000 - 0x8000
  }

  datatype Coefficients = Coefficients(a1: int, a2: int, b1: int, b2: int)

  /** Filter memory and accumulated energy. */
  datatype Memory = Memory(x: int, y: int, v: int, w: int)

  /** The energy one sample adds. */
  function Energy(v: int): (e: int)
    ensures -0x800_0000 <= e < 0x800_0000
  {
    Wrap32(v * v) / 16
  }

  /** One sample through the filter. */
  function FilterStep(c: Coefficients, m: Memory, x: int): Memory {
    var y := Wrap32(x - Wrap32(c.b1 * m.x + c.a1 * m.y) / 64);
    var v := Wrap32(y - Wrap32(c.b2 * m.y + c.a2 * m.v) / 64);
    Memory(x, y, v, Wrap32(Energy(v) + m.w))
  }

  /** The first n samples of a shaping frame through the filter, signed by the bits of sg. */
  function Filtered(c: Coefficients, levels: seq<nat>, sg: bv8, n: nat, m: Memory): (r: Memory)
    requires n <= |levels| <= 6
    ensures -0x8000 <= m.w < 0x8000 ==> -0x8000 - n * 0x800_0000 <= r.w < 0x8000 + n * 0x800_0000
  {
    if n == 0 then m else
      FilterStep(c, Filtered(c, levels, sg, n - 1, m), Signed(Bit(sg, n - 1), levels[n - 1]))
  }

  /** A path into a trellis state: its last sign byte, filter memory and energy, and the state before. */
  datatype Path = Path(t: bv8, x: int, y: int, v: int, w: int, from: u1)

  /** What is stored of a path: 16-bit filter memory and energy. */
  function Stored(p: Path): (r: Path)
    ensures -0x8000 <= r.w < 0x8000 && r.t == p.t && r.from == p.from
  {
    Path(p.t, Short(p.x), Short(p.y), Short(p.v), Short(p.w), p.from)
  }

  /** The frames the shaper looks at: sign bytes and levels, and where it starts. */
  datatype Trellis = Trellis(c: Coefficients, start: Path, q: u1, bytes: seq<bv8>, levels: seq<seq<nat>>)

  predicate TrellisOk(tr: Trellis) {
    && |tr.bytes| == |tr.levels| && -0x8000 <= tr.start.w < 0x8000
    && forall d :: 0 <= d < |tr.levels| ==> |tr.levels[d]| <= 6
  }

  /** The path into `state` after frame d by way of `from`, on top of path p. */
  function Extended(tr: Trellis, d: nat, p: Path, from: u1, state: u1): (r: Path)
    requires TrellisOk(tr) && d < |tr.bytes|
    ensures -0x8000 <= p.w < 0x8000 ==> r.w < INT_MAX
  {
    var sg := NextSigns(p.t, tr.bytes[d], from, state);
    var m := Filtered(tr.c, tr.levels[d], sg, |tr.levels[d]|, Memory(p.x, p.y, p.v, p.w));
    Path(sg, m.x, m.y, m.v, m.w, from)
  }

  function Better(a: Path, b: Path): Path {
    if b.w < a.w then b else a
  }

  /** The best way into `state` after frame d, in full precision. */
  function Winner(tr: Trellis, d: nat, state: u1): (r: Path)
    requires TrellisOk(tr) && d < |tr.bytes|
    ensures d == 0 ==> r.from == tr.q && r.t == NextSigns(tr.start.t, tr.bytes[0], tr.q, state)
    ensures r.w < INT_MAX
    decreases d, 0
  {
    if d == 0 then Extended(tr, 0, tr.start, tr.q, state) else
      Better(Extended(tr, d, Survivor(tr, d, 0), 0, state), Extended(tr, d, Survivor(tr, d, 1), 1, state))
  }

  /** The path kept for `state` after d frames. */
  function Survivor(tr: Trellis, d: nat, state: u1): (r: Path)
    requires TrellisOk(tr) && 1 <= d <= |tr.bytes|
    ensures -0x8000 <= r.w < 0x8000
    decreases d - 1, 1
  {
    Stored(Winner(tr, d - 1, state))
  }

  /** The state with the better survivor after all frames. */
  function Final(tr: Trellis): u1
    requires TrellisOk(tr) && |tr.bytes| >= 1
  {
    if Survivor(tr, |tr.bytes|, 1).w < Survivor(tr, |tr.bytes|, 0).w then 1 else 0
  }

  /** Going back from a state after the frames, by the states stored at depths d, ..., 1. */
  function Traced(tr: Trellis, d: nat, state: u1): u1
    requires TrellisOk(tr) && d <= |tr.bytes|
  {
    if d == 0 then state else Traced(tr, d - 1, Survivor(tr, d, state).from)
  }

  /** The state chosen for the first of the frames. */
  function Chosen(tr: Trellis): u1
    requires TrellisOk(tr) && |tr.bytes| >= 1
  {
    Traced(tr, |tr.bytes| - 1, Final(tr))
  }

  /** With any look-ahead the state chosen is the present one: what lies ahead has no effect. */
  lemma LookAheadStays(tr: Trellis)
    requires TrellisOk(tr) && |tr.bytes| >= 2
    ensures Chosen(tr) == tr.q
  {
    TracedToStart(tr, |tr.bytes| - 1, Final(tr));
  }

  lemma {:induction false} TracedToStart(tr: Trellis, d: nat, state: u1)
    requires TrellisOk(tr) && 1 <= d <= |tr.bytes|
    ensures Traced(tr, d, state) == tr.q
  {
    var from := Survivor(tr, d, state).from;
    if d == 1 {
      assert from == Winner(tr, 0, state).from;
    } else {
      TracedToStart(tr, d - 1, from);
    }
  }

  /** The signs a choice stands for. */
  lemma FirstSigns(tr: Trellis, state: u1)
    requires TrellisOk(tr) && |tr.bytes| >= 1
    ensures Survivor(tr, 1, state).t == NextSigns(tr.start.t, tr.bytes[0], tr.q, state)
  {
  }
}
