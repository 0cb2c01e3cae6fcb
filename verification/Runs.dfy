/** Scan lines as run lengths, white first, and what they stand for: pixels. */
module Runs {
  /** n pixels of one colour; true is black. */
  function Same(black: bool, n: nat): (p: seq<bool>)
    ensures |p| == n && forall i :: 0 <= i < n ==> p[i] == black
  {
    seq(n, _ => black)
  }

  predicate Proper(runs: seq<int>) {
    forall i :: 0 <= i < |runs| ==> runs[i] >= 0
  }

  function Length(run: int): nat {
    if run >= 0 then run else 0
  }

  /** Run i is black when i is odd. */
  function Black(i: nat): bool {
    i % 2 == 1
  }

  function Pixels(runs: seq<int>): seq<bool> {
    if runs == [] then [] else
      var n := |runs| - 1;
      Pixels(runs[..n]) + Same(Black(n), Length(runs[n]))
  }

  function Width(runs: seq<int>): int {
    if runs == [] then 0 else Width(runs[..|runs| - 1]) + runs[|runs| - 1]
  }

  lemma {:induction false} WidthIs(runs: seq<int>)
    requires Proper(runs)
    ensures |Pixels(runs)| == Width(runs)
  {
    if runs != [] { WidthIs(runs[..|runs| - 1]); }
  }

  lemma PixelsSnoc(runs: seq<int>, n: int)
    ensures Pixels(runs + [n]) == Pixels(runs) + Same(Black(|runs|), Length(n))
    ensures Width(runs + [n]) == Width(runs) + n
  {
    assert (runs + [n])[..|runs|] == runs;
  }

  lemma SameConcat(c: bool, m: nat, n: nat)
    ensures Same(c, m) + Same(c, n) == Same(c, m + n)
  {
  }

  /** A longer last run. */
  lemma GrowLast(runs: seq<int>, n: nat)
    requires runs != [] && Proper(runs)
    ensures var k := |runs| - 1;
      && Pixels(runs[k := runs[k] + n]) == Pixels(runs) + Same(Black(k), n)
      && Width(runs[k := runs[k] + n]) == Width(runs) + n
  {
    var k := |runs| - 1;
    var init := runs[..k];
    assert runs[k := runs[k] + n] == init + [runs[k] + n] && runs == init + [runs[k]];
    PixelsSnoc(init, runs[k]);
    PixelsSnoc(init, runs[k] + n);
    SameConcat(Black(k), runs[k], n);
    assert Pixels(init) + (Same(Black(k), runs[k]) + Same(Black(k), n))
        == Pixels(init) + Same(Black(k), runs[k]) + Same(Black(k), n);
  }

  // ----- padding -----

  /** A line padded with white, or cut, by this many pixels. */
  function Padded(p: seq<bool>, pad: int): seq<bool> {
    if pad >= 0 then p + Same(false, pad) else p[..Length(|p| + pad)]
  }

  lemma {:induction false} PrefixPixels(runs: seq<int>, k: nat)
    requires k <= |runs| && Proper(runs)
    ensures Pixels(runs[..k]) <= Pixels(runs) && Width(runs[..k]) <= Width(runs)
  {
    if k < |runs| {
      PrefixPixels(runs[..|runs| - 1], k);
      assert runs[..|runs| - 1][..k] == runs[..k];
    } else {
      assert runs[..k] == runs;
    }
  }

  /** Cutting by -pad leaves the first n runs and `rest` pixels of the next, or nothing. */
  predicate CutHere(line: seq<int>, n: nat, rest: int, pad: int) {
    if n == 0 && pad + Width(line) <= 0 then rest == 0
    else n < |line| && 0 <= rest <= line[n] && rest == pad + Width(line) - Width(line[..n])
  }

  /** Cut a line at the right: drop runs from the end, and keep what was dropped too much. */
  method XCut(runs: array<int>, nr: nat, pad: int) returns (n: nat)
    requires nr < runs.Length && Proper(runs[..nr]) && pad < 0
    modifies runs
    ensures 1 <= n <= nr + 1 && Proper(runs[..n]) && Pixels(runs[..n]) == Padded(old(Pixels(runs[..nr])), pad)
    ensures forall i :: nr < i < runs.Length ==> runs[i] == old(runs[i])
  {
    hide Pixels, Padded;
    ghost var line := runs[..nr];
    var rest := pad;
    n := nr;
    assert line[..nr] == line;
    while rest < 0
      invariant 0 <= n <= nr && runs[..nr] == line
      invariant if rest < 0 then rest == pad + Width(line) - Width(line[..n]) else CutHere(line, n, rest, pad)
      decreases if rest < 0 then 1 else 0, n
    {
      if n <= 0 {
        rest := 0;
      } else {
        n := n - 1;
        assert line[..n + 1][..n] == line[..n];
        rest := rest + runs[n];
      }
    }
    CutAt(line, n, rest, pad);
    runs[n] := rest;
    n := n + 1;
    assert runs[..n] == line[..n - 1] + [rest];
  }

  /** A longer last white run, or one more run. */
  function Widened(line: seq<int>, pad: int): seq<int> {
    if |line| % 2 == 1 then line[|line| - 1 := line[|line| - 1] + pad] else line + [pad]
  }

  lemma WidenedPixels(line: seq<int>, pad: nat)
    requires Proper(line)
    ensures Proper(Widened(line, pad)) && Pixels(Widened(line, pad)) == Padded(Pixels(line), pad)
  {
    hide Pixels, Same, Width;
    if |line| % 2 == 1 { GrowLast(line, pad); } else { PixelsSnoc(line, pad); }
  }

  lemma WidenedWidth(line: seq<int>, pad: int)
    ensures Width(Widened(line, pad)) == Width(line) + pad
  {
    var k := |line| - 1;
    if |line| % 2 == 1 {
      assert line == line[..k] + [line[k]] && Widened(line, pad) == line[..k] + [line[k] + pad];
      PixelsSnoc(line[..k], line[k]);
      PixelsSnoc(line[..k], line[k] + pad);
    } else {
      PixelsSnoc(line, pad);
    }
  }

  /** Pad or cut a line at the right; returns the new number of runs. */
  method XPad(runs: array<int>, nr: nat, pad: int) returns (n: nat)
    requires nr < runs.Length && (pad < 0 ==> Proper(runs[..nr]))
    modifies runs
    ensures n <= nr + 1 && (pad >= 0 || nr > 0 ==> n > 0)
    ensures old(Proper(runs[..nr])) ==> Proper(runs[..n]) && Pixels(runs[..n]) == Padded(old(Pixels(runs[..nr])), pad)
    ensures pad >= 0 ==> runs[..n] == Widened(old(runs[..nr]), pad)
    ensures forall i :: nr < i < runs.Length ==> runs[i] == old(runs[i])
  {
    hide Pixels;
    ghost var line := runs[..nr];
    if pad < 0 {
      n := XCut(runs, nr, pad);
    } else {
      if nr % 2 == 1 {
        runs[nr - 1] := runs[nr - 1] + pad;
        n := nr;
      } else {
        runs[nr] := pad;
        n := nr + 1;
      }
      assert runs[..n] == Widened(line, pad);
      if Proper(line) { WidenedPixels(line, pad); }
    }
  }

  lemma TakeTwo(a: seq<bool>, b: seq<bool>, c: seq<bool>, t: seq<bool>, n: nat)
    requires n == |a| + |b|
    ensures n <= |a + (b + c) + t| && (a + (b + c) + t)[..n] == a + b
  {
  }

  lemma CutAt(line: seq<int>, n: nat, rest: int, pad: int)
    requires Proper(line) && pad < 0 && n <= |line| && CutHere(line, n, rest, pad)
    ensures rest >= 0 && Pixels(line[..n] + [rest]) == Padded(Pixels(line), pad)
  {
    hide Pixels, Same, Padded;
    WidthIs(line);
    PixelsSnoc(line[..n], rest);
    if n == 0 && pad + Width(line) <= 0 {
      CutAll(line, n, rest, pad);
    } else {
      CutInside(line, n, rest, pad);
    }
  }

  lemma CutAll(line: seq<int>, n: nat, rest: int, pad: int)
    requires Proper(line) && n == 0 && pad + Width(line) <= 0 && CutHere(line, n, rest, pad)
    requires |Pixels(line)| == Width(line)
    ensures rest == 0 && Pixels(line[..n]) + Same(Black(n), Length(rest)) == Padded(Pixels(line), pad)
  {
    hide Pixels;
    assert line[..0] == [];
    NoPixels();
  }

  lemma CutInside(line: seq<int>, n: nat, rest: int, pad: int)
    requires Proper(line) && n < |line| && !(n == 0 && pad + Width(line) <= 0) && CutHere(line, n, rest, pad)
    requires pad < 0 && |Pixels(line)| == Width(line)
    ensures rest >= 0 && Pixels(line[..n]) + Same(Black(n), Length(rest)) == Padded(Pixels(line), pad)
  {
    hide Pixels, Same, Width, WidthFrom, From;
    WidthIs(line[..n]);
    SplitAt(line, n + 1);
    assert line[..n + 1] == line[..n] + [line[n]];
    PixelsSnoc(line[..n], line[n]);
    SameConcat(Black(n), rest, line[n] - rest);
    TakeTwo(Pixels(line[..n]), Same(Black(n), rest), Same(Black(n), line[n] - rest), From(line, n + 1),
            |Pixels(line)| + pad);
  }

  lemma NoPixels()
    ensures Pixels([]) == [] && Width([]) == 0
  {
  }

  // ----- shifting -----

  /** A line shifted right by s white pixels, or left by dropping its first -s pixels. */
  function Shifted(p: seq<bool>, s: int): seq<bool> {
    if s >= 0 then Same(false, s) + p else if -s <= |p| then p[-s..] else []
  }

  /** The pixels of the runs from k on. */
  function From(line: seq<int>, k: nat): seq<bool>
    requires k <= |line|
    decreases |line| - k
  {
    if k == |line| then [] else Same(Black(k), Length(line[k])) + From(line, k + 1)
  }

  function WidthFrom(line: seq<int>, k: nat): int
    requires k <= |line|
    decreases |line| - k
  {
    if k == |line| then 0 else line[k] + WidthFrom(line, k + 1)
  }

  lemma {:induction false} SplitAt(line: seq<int>, k: nat)
    requires k <= |line|
    ensures Pixels(line) == Pixels(line[..k]) + From(line, k) && Width(line) == Width(line[..k]) + WidthFrom(line, k)
    decreases |line| - k
  {
    hide Same;
    if k == |line| {
      assert line[..k] == line;
      assert Pixels(line) + [] == Pixels(line);
    } else {
      SplitAt(line, k + 1);
      assert line[..k + 1] == line[..k] + [line[k]];
      PixelsSnoc(line[..k], line[k]);
      var a, b, c := Pixels(line[..k]), Same(Black(k), Length(line[k])), From(line, k + 1);
      assert a + b + c == a + (b + c);
    }
  }

  lemma {:induction false} SameFrom(a: seq<int>, b: seq<int>, k: nat)
    requires k <= |a| == |b| && forall i :: k <= i < |a| ==> a[i] == b[i]
    ensures From(a, k) == From(b, k) && WidthFrom(a, k) == WidthFrom(b, k)
    decreases |a| - k
  {
    if k < |a| { SameFrom(a, b, k + 1); }
  }

  lemma {:induction false} FromNotNegative(line: seq<int>, k: nat)
    requires k <= |line| && Proper(line)
    ensures WidthFrom(line, k) >= 0
    decreases |line| - k
  {
    if k < |line| { FromNotNegative(line, k + 1); }
  }

  lemma {:induction false} ZerosVanish(line: seq<int>, k: nat)
    requires k <= |line| && forall i :: 0 <= i < k ==> line[i] == 0
    ensures Pixels(line[..k]) == [] && Width(line[..k]) == 0
  {
    if k > 0 {
      ZerosVanish(line, k - 1);
      assert line[..k] == line[..k - 1] + [0];
      PixelsSnoc(line[..k - 1], 0);
    }
  }

  /** Line `shifted` has no pixels before run i, `rest` in run i, and then the pixels of `line`. */
  predicate FrontDropped(line: seq<int>, shifted: seq<int>, i: nat, rest: int) {
    && |shifted| == |line| && i < |line| && shifted[i] == rest
    && (forall k :: 0 <= k < i ==> shifted[k] == 0)
    && (forall k :: i < k < |line| ==> shifted[k] == line[k])
  }

  lemma DroppedPixels(line: seq<int>, shifted: seq<int>, i: nat, rest: int)
    requires Proper(line) && FrontDropped(line, shifted, i, rest)
    ensures Pixels(shifted) == Same(Black(i), Length(rest)) + From(line, i + 1)
    ensures Width(shifted) == rest + WidthFrom(line, i + 1)
    ensures Proper(shifted) <==> rest >= 0
  {
    hide Same, Pixels;
    SplitAt(shifted, i + 1);
    ZerosVanish(shifted, i);
    assert shifted[..i + 1] == shifted[..i] + [rest];
    PixelsSnoc(shifted[..i], rest);
    SameFrom(line, shifted, i + 1);
    assert [] + Same(Black(i), Length(rest)) == Same(Black(i), Length(rest));
  }

  lemma DropTwo(a: seq<bool>, b: seq<bool>, c: seq<bool>, rest: seq<bool>, n: nat)
    requires n == |a| + |b|
    ensures (a + (b + c) + rest)[n..] == c + rest
  {
  }

  lemma WidthUpTo(line: seq<int>, i: nat)
    requires i < |line|
    ensures Width(line[..i + 1]) == Width(line[..i]) + line[i]
    ensures Width(line) == Width(line[..i + 1]) + WidthFrom(line, i + 1)
  {
    hide Same;
    assert line[..i + 1][..i] == line[..i];
    SplitAt(line, i + 1);
  }

  lemma DropPixels(line: seq<int>, i: nat, rest: nat, n: nat)
    requires Proper(line) && i < |line| && rest <= line[i] && n + rest == Width(line[..i]) + line[i]
    ensures n <= |Pixels(line)| && Pixels(line)[n..] == Same(Black(i), rest) + From(line, i + 1)
  {
    hide Same, Pixels, Width;
    SplitAt(line, i + 1);
    WidthIs(line[..i]);
    assert line[..i + 1] == line[..i] + [line[i]];
    PixelsSnoc(line[..i], line[i]);
    SameConcat(Black(i), line[i] - rest, rest);
    DropTwo(Pixels(line[..i]), Same(Black(i), line[i] - rest), Same(Black(i), rest), From(line, i + 1), n);
  }

  /** Dropping -s pixels from the front. */
  lemma DropFront(line: seq<int>, shifted: seq<int>, i: nat, rest: int, s: int)
    requires Proper(line) && s < 0 && FrontDropped(line, shifted, i, rest) && rest == s + Width(line[..i + 1])
    requires s + Width(line[..i]) < 0 && (rest < 0 ==> i == |line| - 1)
    ensures Width(shifted) == Width(line) + s && (Proper(shifted) <==> -s <= Width(line))
    ensures -s <= Width(line) ==> -s <= |Pixels(line)| && Pixels(shifted) == Shifted(Pixels(line), s)
  {
    hide Same, Pixels, Width, WidthFrom, From;
    DroppedPixels(line, shifted, i, rest);
    WidthUpTo(line, i);
    FromNotNegative(line, i + 1);
    if rest >= 0 { DropPixels(line, i, rest, -s); } else { NothingAfter(line, i + 1); }
  }

  lemma NothingAfter(line: seq<int>, k: nat)
    requires k == |line|
    ensures WidthFrom(line, k) == 0
  {
  }

  /** Lengthening the first run. */
  lemma GrowFirst(line: seq<int>, s: nat)
    requires Proper(line) && line != []
    ensures var more := line[0 := line[0] + s];
      Width(more) == Width(line) + s && Proper(more) && Pixels(more) == Shifted(Pixels(line), s)
  {
    hide Same, Pixels;
    var more := line[0 := line[0] + s];
    SplitAt(line, 0);
    SplitAt(more, 0);
    assert line[..0] == [] && more[..0] == [];
    NoPixels();
    SameFrom(line, more, 1);
    SameConcat(false, s, line[0]);
    var a, b, c := Same(false, s), Same(false, line[0]), From(line, 1);
    assert a + b + c == a + (b + c);
    assert [] + From(line, 0) == From(line, 0) && [] + From(more, 0) == From(more, 0);
  }

  /** Shift a line left. */
  method XShiftLeft(runs: array<int>, nr: nat, s: int) returns (n: int)
    requires nr <= runs.Length && Proper(runs[..nr]) && nr > 0 && s < 0
    modifies runs
    ensures n == s && Width(runs[..nr]) == old(Width(runs[..nr])) + s
    ensures Proper(runs[..nr]) <==> -s <= old(Width(runs[..nr]))
    ensures -s <= old(Width(runs[..nr])) ==>
      |old(Pixels(runs[..nr]))| == old(Width(runs[..nr])) && Pixels(runs[..nr]) == Shifted(old(Pixels(runs[..nr])), s)
    ensures -s > old(Width(runs[..nr])) ==> OnlyLast(runs[..nr], old(Width(runs[..nr])) + s)
    ensures forall i :: nr <= i < runs.Length ==> runs[i] == old(runs[i])
  {
    hide Pixels, Shifted, Same, Width;
    ghost var line := runs[..nr];
    var i, rest := 0, s;
    n := 0;
    NoPixels();
    assert line[..0] == [] && line[..nr] == line;
    WidthIs(line);
    while rest < 0 && i < nr
      invariant 0 <= i <= nr && (i == 0 ==> rest < 0)
      invariant rest == s + Width(line[..i]) && n == -Width(line[..i])
      invariant i > 0 ==> s + Width(line[..i - 1]) < 0
      invariant forall k :: 0 <= k < nr ==> runs[k] == if k < i then 0 else line[k]
      invariant forall k :: nr <= k < runs.Length ==> runs[k] == old(runs[k])
    {
      WidthUpTo(line, i);
      rest := rest + runs[i];
      n := n - runs[i];
      runs[i] := 0;
      i := i + 1;
    }
    i := i - 1;
    runs[i] := runs[i] + rest;
    n := n + rest;
    ghost var shifted := runs[..nr];
    assert FrontDropped(line, shifted, i, rest);
    DropFront(line, shifted, i, rest, s);
  }

  /** Runs that are zero but for the last. */
  predicate OnlyLast(runs: seq<int>, last: int) {
    |runs| > 0 && runs == seq(|runs| - 1, _ => 0) + [last]
  }

  /**
   Shift a line; returns the change of width. A run is negative exactly when a shift to the left is longer than the
   line. A line without runs stays as it is.
   */
  method XShift(runs: array<int>, nr: nat, s: int) returns (n: int)
    requires nr <= runs.Length && Proper(runs[..nr]) && (s < 0 ==> nr > 0)
    modifies runs
    ensures n == (if nr == 0 then 0 else s) && Width(runs[..nr]) == old(Width(runs[..nr])) + n
    ensures Proper(runs[..nr]) <==> -s <= old(Width(runs[..nr]))
    ensures nr > 0 && -s <= old(Width(runs[..nr])) ==>
      |old(Pixels(runs[..nr]))| == old(Width(runs[..nr])) && Pixels(runs[..nr]) == Shifted(old(Pixels(runs[..nr])), s)
    ensures -s > old(Width(runs[..nr])) ==> OnlyLast(runs[..nr], old(Width(runs[..nr])) + s)
    ensures forall i :: nr <= i < runs.Length ==> runs[i] == old(runs[i])
  {
    hide Pixels, Shifted, Same;
    ghost var line := runs[..nr];
    WidthIs(line);
    n := 0;
    if s < 0 {
      n := XShiftLeft(runs, nr, s);
    } else if 0 < nr {
      runs[0] := runs[0] + s;
      n := s;
      assert runs[..nr] == line[0 := line[0] + s];
      GrowFirst(line, s);
    }
  }

  // ----- scaling -----

  /** Where position x goes when a line is scaled by xs/256. */
  function ScaledTo(x: int, xs: int): int {
    (x * xs + 128) / 256
  }

  /** Within half a pixel of exact scaling; later positions go no further left. */
  lemma HalfPixel(x: int, xs: int)
    ensures -128 <= 256 * ScaledTo(x, xs) - x * xs <= 128
  {
  }

  lemma ScaledInOrder(x: int, y: int, xs: nat)
    requires x <= y
    ensures ScaledTo(x, xs) <= ScaledTo(y, xs)
  {
    MulMonotone(x, y, xs);
  }

  lemma MulMonotone(x: int, y: int, m: nat)
    requires x <= y
    ensures x * m <= y * m
  {
  }

  lemma WidthStep(runs: seq<int>, k: nat)
    requires k < |runs|
    ensures Width(runs[..k + 1]) == Width(runs[..k]) + runs[k]
  {
    assert runs[..k + 1][..k] == runs[..k];
  }

  lemma {:induction false} WidthPrefix(runs: seq<int>, more: seq<int>, k: nat)
    requires k <= |runs| && k <= |more| && forall i :: 0 <= i < k ==> runs[i] == more[i]
    ensures Width(runs[..k]) == Width(more[..k])
  {
    assert runs[..k] == more[..k];
  }

  /** Scale a line by xs/256, run by run, so that every prefix is within half a pixel; returns the new width. */
  method XScale(runs: array<int>, nr: nat, xs: nat) returns (width: int)
    requires nr <= runs.Length && Proper(runs[..nr])
    modifies runs
    ensures Proper(runs[..nr]) && width == Width(runs[..nr])
    ensures forall k :: 0 <= k <= nr ==> Width(runs[..k]) == ScaledTo(Width(old(runs[..nr])[..k]), xs)
    ensures forall i :: nr <= i < runs.Length ==> runs[i] == old(runs[i])
  {
    hide Width, ScaledTo;
    ghost var line := runs[..nr];
    var inlen, i := 0, 0;
    width := 0;
    NoWidth(xs, line);
    while i < nr
      invariant 0 <= i <= nr && inlen == Width(line[..i]) && width == ScaledTo(inlen, xs)
      invariant Proper(runs[..nr]) && forall k :: i <= k < runs.Length ==> runs[k] == old(runs[k])
      invariant forall k :: 0 <= k <= i ==> Width(runs[..k]) == ScaledTo(Width(line[..k]), xs)
    {
      ghost var before := runs[..nr];
      WidthStep(line, i);
      assert runs[i] == line[i];
      ScaledInOrder(inlen, inlen + runs[i], xs);
      inlen := inlen + runs[i];
      runs[i] := ScaledTo(inlen, xs) - width;
      width := width + runs[i];
      ghost var after := runs[..nr];
      forall k | 0 <= k <= i ensures Width(runs[..k]) == ScaledTo(Width(line[..k]), xs) {
        WidthPrefix(before, after, k);
        assert runs[..k] == after[..k] && before[..k] == before[..k];
        assert Width(before[..k]) == ScaledTo(Width(line[..k]), xs);
      }
      WidthStep(after, i);
      assert runs[..i + 1] == after[..i + 1] && runs[..i] == after[..i];
      i := i + 1;
    }
  }

  lemma NoWidth(xs: nat, line: seq<int>)
    ensures Width([]) == 0 && ScaledTo(0, xs) == 0 && line[..0] == []
  {
  }
}
