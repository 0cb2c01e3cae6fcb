/** When the state the shaper chooses begins a path of least energy. */
module V90Shortest {
  import opened Bits
  import opened V90Radix
  import opened V90Signs
  import opened V90Stream
  import opened V90Trellis

  // ----- paths in full precision -----

  /** The path through states qs from frame d on, on top of path p in state `from`, nothing cut to 16 bits. */
  function Walk(tr: Trellis, d: nat, p: Path, from: u1, qs: seq<u1>): Path
    requires TrellisOk(tr) && d + |qs| == |tr.bytes|
    decreases qs
  {
    if qs == [] then p else Walk(tr, d + 1, Extended(tr, d, p, from, qs[0]), qs[0], qs[1..])
  }

  /** The energy of the states qs over all the frames. */
  function PathEnergy(tr: Trellis, qs: seq<u1>): int
    requires TrellisOk(tr) && |qs| == |tr.bytes|
  {
    Walk(tr, 0, tr.start, tr.q, qs).w
  }

  ghost predicate LeastPath(tr: Trellis, qs: seq<u1>)
    requires TrellisOk(tr) && |qs| == |tr.bytes|
  {
    forall other: seq<u1> :: |other| == |qs| ==> PathEnergy(tr, qs) <= PathEnergy(tr, other)
  }

  /** Some path of least energy begins in this state. */
  ghost predicate LeastBegins(tr: Trellis, state: u1)
    requires TrellisOk(tr) && |tr.bytes| >= 1
  {
    exists qs: seq<u1> :: |qs| == |tr.bytes| && qs[0] == state && LeastPath(tr, qs)
  }

  /** The least energy of the paths from frame d on. */
  function Cheapest(tr: Trellis, d: nat, p: Path, from: u1): int
    requires TrellisOk(tr) && d <= |tr.bytes|
    decreases |tr.bytes| - d
  {
    if d == |tr.bytes| then p.w else
      var a := Cheapest(tr, d + 1, Extended(tr, d, p, from, 0), 0);
      var b := Cheapest(tr, d + 1, Extended(tr, d, p, from, 1), 1);
      if b < a then b else a
  }

  /** The least energy of the paths that begin in `state`. */
  function CheapestFrom(tr: Trellis, state: u1): int
    requires TrellisOk(tr) && |tr.bytes| >= 1
  {
    Cheapest(tr, 1, Extended(tr, 0, tr.start, tr.q, state), state)
  }

  lemma {:induction false} NoneCheaper(tr: Trellis, d: nat, p: Path, from: u1, qs: seq<u1>)
    requires TrellisOk(tr) && d + |qs| == |tr.bytes|
    ensures Cheapest(tr, d, p, from) <= Walk(tr, d, p, from, qs).w
    decreases qs
  {
    hide Extended;
    if qs != [] { NoneCheaper(tr, d + 1, Extended(tr, d, p, from, qs[0]), qs[0], qs[1..]); }
  }

  lemma {:induction false} CheapestPath(tr: Trellis, d: nat, p: Path, from: u1) returns (qs: seq<u1>)
    requires TrellisOk(tr) && d <= |tr.bytes|
    ensures d + |qs| == |tr.bytes| && Walk(tr, d, p, from, qs).w == Cheapest(tr, d, p, from)
    decreases |tr.bytes| - d
  {
    hide Extended;
    if d == |tr.bytes| {
      qs := [];
    } else {
      var a := CheapestPath(tr, d + 1, Extended(tr, d, p, from, 0), 0);
      var b := CheapestPath(tr, d + 1, Extended(tr, d, p, from, 1), 1);
      var x, y := [0] + a, [1] + b;
      assert x[1..] == a && y[1..] == b;
      qs := if Walk(tr, d, p, from, y).w < Walk(tr, d, p, from, x).w then y else x;
    }
  }

  /** Every path costs at least the cheapest one that begins in the same state. */
  lemma NoneCheaperFrom(tr: Trellis, qs: seq<u1>)
    requires TrellisOk(tr) && |qs| == |tr.bytes| >= 1
    ensures CheapestFrom(tr, qs[0]) <= PathEnergy(tr, qs)
  {
    hide Extended;
    NoneCheaper(tr, 1, Extended(tr, 0, tr.start, tr.q, qs[0]), qs[0], qs[1..]);
  }

  lemma CheapestPathFrom(tr: Trellis, state: u1) returns (qs: seq<u1>)
    requires TrellisOk(tr) && |tr.bytes| >= 1
    ensures |qs| == |tr.bytes| && qs[0] == state && PathEnergy(tr, qs) == CheapestFrom(tr, state)
  {
    hide Extended;
    var rest := CheapestPath(tr, 1, Extended(tr, 0, tr.start, tr.q, state), state);
    qs := [state] + rest;
    assert qs[1..] == rest;
  }

  /** A least path begins in a state if and only if none that begins in the other state is cheaper. */
  lemma LeastCondition(tr: Trellis, state: u1)
    requires TrellisOk(tr) && |tr.bytes| >= 1
    ensures LeastBegins(tr, state) <==> CheapestFrom(tr, state) <= CheapestFrom(tr, Xor(1, state))
  {
    hide CheapestFrom, PathEnergy;
    var mine := CheapestPathFrom(tr, state);
    var its := CheapestPathFrom(tr, Xor(1, state));
    forall qs: seq<u1> | |qs| == |tr.bytes| ensures CheapestFrom(tr, qs[0]) <= PathEnergy(tr, qs) {
      NoneCheaperFrom(tr, qs);
    }
    if LeastBegins(tr, state) {
      var qs: seq<u1> :| |qs| == |tr.bytes| && qs[0] == state && LeastPath(tr, qs);
      assert PathEnergy(tr, qs) <= PathEnergy(tr, its);
    }
    if CheapestFrom(tr, state) <= CheapestFrom(tr, Xor(1, state)) {
      forall other: seq<u1> | |other| == |mine| ensures PathEnergy(tr, mine) <= PathEnergy(tr, other) {
        assert other[0] == state || other[0] == Xor(1, state);
      }
      assert LeastPath(tr, mine);
    }
  }

  // ----- the state the shaper chooses -----

  /** With any look-ahead the choice is least exactly if staying in the present state is. */
  lemma StayingIsLeast(tr: Trellis)
    requires TrellisOk(tr) && |tr.bytes| >= 2
    ensures LeastBegins(tr, Chosen(tr)) <==> CheapestFrom(tr, tr.q) <= CheapestFrom(tr, Xor(1, tr.q))
  {
    hide CheapestFrom;
    LookAheadStays(tr);
    LeastCondition(tr, tr.q);
  }

  /** Which 65536 energies an energy is among, as 16 bits tell them apart. */
  function Window(e: int): (k: int)
    ensures e == 0x1_0000 * k + Short(e)
  {
    (e + 0x8000) / 0x1_0000
  }

  /**
   Without look-ahead the choice is least exactly if both energies are in the same window, or the one in the
   lower window is also the lower one in 16 bits.
   */
  lemma GreedyIsLeast(tr: Trellis)
    requires TrellisOk(tr) && |tr.bytes| == 1
    ensures var e0, e1 := CheapestFrom(tr, 0), CheapestFrom(tr, 1);
      && (LeastBegins(tr, Chosen(tr)) <==>
          || Window(e0) == Window(e1)
          || (Window(e0) < Window(e1) && Short(e0) <= Short(e1))
          || (Window(e1) < Window(e0) && Short(e1) < Short(e0)))
      && (0 <= e0 < 0x8000 && 0 <= e1 < 0x8000 ==> LeastBegins(tr, Chosen(tr)))
  {
    hide Extended;
    LeastCondition(tr, Chosen(tr));
  }

  // ----- choices that are not least -----

  /** A filter that subtracts the sample before. */
  const Difference := Coefficients(0, 0, 64, 0)

  lemma QuietEnergy(d: int)
    requires -2000 <= d <= 2000
    ensures 0 <= Energy(d) <= 250_000 && Energy(-d) == Energy(d) && Energy(0) == 0
  {
    assert (-d) * (-d) == d * d;
    SquareAtMost(d, 2000);
  }

  lemma SquareAtMost(a: int, b: nat)
    requires a <= b && 0 <= a + b
    ensures 0 <= a * a <= b * b
  {
    if a >= 0 {
      MulLe(a, b, a);
      MulLe(a, b, b);
    } else {
      MulLe(-a, b, -a);
      MulLe(-a, b, b);
    }
  }

  lemma DifferenceStep(m: Memory, x: int)
    requires -1000 <= x <= 1000 && -1000 <= m.x <= 1000 && 0 <= m.w <= 1_000_000
    ensures FilterStep(Difference, m, x) == Memory(x, x - m.x, x - m.x, m.w + Energy(x - m.x))
  {
    hide Energy, Wrap32;
    var y := x - m.x;
    QuietEnergy(y);
    assert Wrap32(64 * m.x + 0 * m.y) / 64 == m.x;
    assert Wrap32(0 * y + 0 * m.v) / 64 == 0;
  }

  /** One loud sample, then silence. */
  const LoudFrame: seq<nat> := [988, 0, 0, 0, 0, 0]
  const SilentFrame: seq<nat> := [0, 0, 0, 0, 0, 0]

  lemma FilteredNext(levels: seq<nat>, sg: bv8, n: nat, m: Memory)
    requires 1 <= n <= |levels| <= 6
    ensures Filtered(Difference, levels, sg, n, m)
         == FilterStep(Difference, Filtered(Difference, levels, sg, n - 1, m), Signed(Bit(sg, n - 1), levels[n - 1]))
  {
  }

  /** Silence adds the energy of the last sample, and nothing more. */
  lemma {:induction false} Silence(levels: seq<nat>, sg: bv8, n: nat, m: Memory)
    requires 3 <= n <= |levels| <= 6 && forall k :: 1 <= k < n ==> levels[k] == 0
    requires levels[0] <= 1000 && -1000 <= m.x <= 1000 && 0 <= m.w <= 400_000
    ensures var x := Signed(Bit(sg, 0), levels[0]);
      Filtered(Difference, levels, sg, n, m) == Memory(0, 0, 0, m.w + Energy(x - m.x) + Energy(x))
  {
    hide Filtered, FilterStep, Bit, Energy;
    FilteredNext(levels, sg, n, m);
    if n == 3 {
      var x := Signed(Bit(sg, 0), levels[0]);
      FilteredNext(levels, sg, 2, m);
      FilteredNext(levels, sg, 1, m);
      FilteredNone(levels, sg, m);
      QuietEnergy(x - m.x);
      QuietEnergy(x);
      DifferenceStep(m, x);
      DifferenceStep(Memory(x, x - m.x, x - m.x, m.w + Energy(x - m.x)), 0);
      DifferenceStep(Memory(0, -x, -x, m.w + Energy(x - m.x) + Energy(x)), 0);
    } else {
      Silence(levels, sg, n - 1, m);
      QuietEnergy(Signed(Bit(sg, 0), levels[0]) - m.x);
      QuietEnergy(Signed(Bit(sg, 0), levels[0]));
      DifferenceStep(Filtered(Difference, levels, sg, n - 1, m), 0);
    }
  }

  lemma FilteredNone(levels: seq<nat>, sg: bv8, m: Memory)
    requires |levels| <= 6
    ensures Filtered(Difference, levels, sg, 0, m) == m
  {
  }

  /** The frames ahead after a loud sample of either sign. */
  function AfterLoud(x: int, levels: seq<seq<nat>>): Trellis {
    Trellis(Difference, Path(0, x, 0, 0, 0, 0), 0, seq(|levels|, _ => 0), levels)
  }

  /** The first frame after the loud sample is loud: a repeated sign costs less than a changed one. */
  lemma FirstLoud(x: int, levels: seq<seq<nat>>, state: u1)
    requires (x == 988 || x == -988) && levels != [] && levels[0] == LoudFrame
    ensures TrellisOk(AfterLoud(x, levels)) ==>
      Extended(AfterLoud(x, levels), 0, AfterLoud(x, levels).start, 0, state)
      == Path(SignOp(state, 0), 0, 0, 0, if state == (if x < 0 then 0 else 1) then 61009 else 305045, 0)
  {
    hide Filtered, FilterStep;
    var sg := NextSigns(0, 0, 0, state);
    assert sg == SignOp(state, 0) && Bit(sg, 0) == state;
    Silence(LoudFrame, sg, 6, Memory(x, 0, 0, 0));
  }

  /** Without look-ahead: energies 61009 and 305045 are taken for -4527 and -22635. */
  lemma CutMisleads()
    ensures var tr := AfterLoud(-988, [LoudFrame]);
      && TrellisOk(tr) && CheapestFrom(tr, 0) == 61009 && CheapestFrom(tr, 1) == 305045
      && Chosen(tr) == 1 && !LeastBegins(tr, 1)
  {
    hide Extended;
    var tr := AfterLoud(-988, [LoudFrame]);
    FirstLoud(-988, [LoudFrame], 0);
    FirstLoud(-988, [LoudFrame], 1);
    LeastCondition(tr, 1);
  }

  lemma SilentNext(x: int, p: Path, from: u1, state: u1)
    requires p.x == 0 && 0 <= p.w <= 400_000
    ensures var tr := AfterLoud(x, [LoudFrame, SilentFrame]);
      TrellisOk(tr) && Extended(tr, 1, p, from, state).w == p.w
  {
    hide Filtered, FilterStep;
    Silence(SilentFrame, NextSigns(p.t, 0, from, state), 6, Memory(p.x, p.y, p.v, p.w));
  }

  lemma EnergyAfterLoud(q: u1)
    ensures var tr := AfterLoud(988, [LoudFrame, SilentFrame]);
      TrellisOk(tr) && CheapestFrom(tr, q) == if q == 1 then 61009 else 305045
  {
    hide Extended;
    var tr := AfterLoud(988, [LoudFrame, SilentFrame]);
    FirstLoud(988, [LoudFrame, SilentFrame], q);
    var p := Extended(tr, 0, tr.start, 0, q);
    SilentNext(988, p, q, 0);
    SilentNext(988, p, q, 1);
    LastStep(tr, p, q);
  }

  lemma LastStep(tr: Trellis, p: Path, q: u1)
    requires TrellisOk(tr) && |tr.bytes| == 2 && Extended(tr, 1, p, q, 0).w == Extended(tr, 1, p, q, 1).w
    ensures Cheapest(tr, 1, p, q) == Extended(tr, 1, p, q, 0).w
  {
    hide Extended;
  }

  /** With look-ahead: the change of state that saves energy is not made. */
  lemma StayingMisleads()
    ensures var tr := AfterLoud(988, [LoudFrame, SilentFrame]);
      && TrellisOk(tr) && CheapestFrom(tr, 0) == 305045 && CheapestFrom(tr, 1) == 61009
      && Chosen(tr) == 0 && !LeastBegins(tr, 0)
  {
    hide Extended;
    var levels := [LoudFrame, SilentFrame];
    var tr := AfterLoud(988, levels);
    EnergyAfterLoud(0);
    EnergyAfterLoud(1);
    LookAheadStays(tr);
    LeastCondition(tr, 0);
  }
}
