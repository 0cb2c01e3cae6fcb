/** The page loop of efix: every input line scaled, shifted, padded, and written as often as y-scaling asks. */
module Efix {
  import opened Runs
  import opened RunOr

  /** What is done to a page: size, scaling by xs/256 and ys/256, shifts. */
  datatype Layout = Layout(w: nat, h: nat, xs: nat, ys: nat, xshift: int, yshift: int)

  /** A line as it is read; without runs it cannot be shifted left. */
  ghost predicate LineOk(line: seq<int>, l: Layout) {
    |line| < MAXRUNS && Proper(line) && (l.xshift < 0 ==> 0 < |line|)
  }

  /** A shift to the left ends inside the line, or in white. */
  ghost predicate ShiftFits(line: seq<int>, l: Layout) {
    -l.xshift <= ScaledTo(Width(line), l.xs) || |line| % 2 == 1
  }

  /** n copies of a line. */
  function Copies(line: seq<int>, n: nat): (r: seq<seq<int>>)
    ensures |r| == n && forall i :: 0 <= i < n ==> r[i] == line
  {
    seq(n, _ => line)
  }

  /** How many lines the first i input lines become. */
  function LinesFor(i: nat, ys: nat): nat {
    i * ys / 256
  }

  lemma LinesInOrder(i: nat, ys: nat)
    ensures LinesFor(i, ys) <= LinesFor(i + 1, ys)
  {
    assert (i + 1) * ys == i * ys + ys;
  }

  /** The lines made, each as often as it is due: line i goes to floor(i*ys/256) - floor((i-1)*ys/256) lines. */
  function Body(made: seq<seq<int>>, ys: nat): seq<seq<int>> {
    if made == [] then [] else
      var n := |made| - 1;
      Body(made[..n], ys) + Copies(made[n], Upper(LinesFor(n + 1, ys) - LinesFor(n, ys)))
  }

  lemma {:induction false} BodyLength(made: seq<seq<int>>, ys: nat)
    ensures |Body(made, ys)| == LinesFor(|made|, ys)
  {
    hide LinesFor;
    if made == [] {
      NoLines(ys);
    } else {
      BodyLength(made[..|made| - 1], ys);
      LinesInOrder(|made| - 1, ys);
    }
  }

  function Upper(n: int): nat {
    if n > 0 then n else 0
  }

  /** A margin, and what of the body finds room in h lines below it. */
  function Filled(margin: seq<seq<int>>, body: seq<seq<int>>, h: nat): (r: seq<seq<int>>)
    ensures |margin| >= h ==> r == margin
    ensures |margin| < h ==> |r| == if |margin + body| > h then h else |margin + body|
  {
    if |margin| >= h then margin else if |margin + body| <= h then margin + body else (margin + body)[..h]
  }

  /** The page: a margin of white lines, the body as far as there is room, and white lines up to h. */
  function Page(made: seq<seq<int>>, l: Layout): (r: seq<seq<int>>)
    ensures |r| == if Upper(l.yshift) > l.h then Upper(l.yshift) else l.h
  {
    var top := Filled(Copies([l.w], Upper(l.yshift)), Body(made, l.ys), l.h);
    top + Copies([l.w], Upper(l.h - |top|))
  }

  /** A line with every run boundary scaled. */
  function ScaledRuns(line: seq<int>, xs: nat): (r: seq<int>)
    ensures |r| == |line|
  {
    seq(|line|, k requires 0 <= k < |line| => ScaledTo(Width(line[..k + 1]), xs) - ScaledTo(Width(line[..k]), xs))
  }

  /** What a line is on the page: scaled, shifted, and padded or cut to w pixels. */
  ghost function Laid(line: seq<int>, l: Layout): (p: seq<bool>)
    ensures |p| == l.w
  {
    var q := Shifted(Pixels(ScaledRuns(line, l.xs)), l.xshift);
    Padded(q, l.w - |q|)
  }

  lemma ScaledRunsAre(line: seq<int>, runs: seq<int>, xs: nat)
    requires |runs| == |line| && forall k :: 0 <= k <= |line| ==> Width(runs[..k]) == ScaledTo(Width(line[..k]), xs)
    ensures runs == ScaledRuns(line, xs)
  {
    hide Width, ScaledTo;
    forall k | 0 <= k < |line| ensures runs[k] == ScaledRuns(line, xs)[k] {
      WidthStep(runs, k);
    }
  }

  lemma SameScale(line: seq<int>)
    ensures ScaledRuns(line, 256) == line
  {
    hide Width, ScaledTo;
    forall k | 0 <= k < |line| ensures ScaledRuns(line, 256)[k] == line[k] {
      WidthStep(line, k);
      WidthScaled(line[..k]);
      WidthScaled(line[..k + 1]);
    }
  }

  /**
   A line shifted away altogether: after padding, its last run ends the line in white if it is a white run, and
   stays negative if it is a black one.
   */
  lemma ShiftedAway(runs: seq<int>, last: int, w: nat)
    requires OnlyLast(runs, last) && last < 0
    ensures Proper(Widened(runs, w - last)) <==> |runs| % 2 == 1
    ensures |runs| % 2 == 1 ==> Pixels(Widened(runs, w - last)) == Same(false, w)
  {
    hide Pixels, Same, Width;
    var more, k := Widened(runs, w - last), |runs| - 1;
    if |runs| % 2 == 1 {
      assert more == more[..k] + [w];
      ZerosVanish(more, k);
      PixelsSnoc(more[..k], w);
      assert [] + Same(false, w) == Same(false, w);
    } else {
      assert more[k] == last;
    }
  }

  /** A line with nothing left after the shift, or nothing to begin with, is white. */
  lemma LaidWhite(line: seq<int>, l: Layout)
    requires line == [] || -l.xshift > |Pixels(ScaledRuns(line, l.xs))|
    ensures Laid(line, l) == Same(false, l.w)
  {
  }

  /** Scale, shift and pad a line to w pixels. */
  method LayLine(runs: array<int>, nr: nat, l: Layout) returns (n: nat)
    requires runs.Length == MAXRUNS && nr < MAXRUNS && LineOk(runs[..nr], l)
    modifies runs
    ensures n <= MAXRUNS && Width(runs[..n]) == l.w
    ensures Proper(runs[..n]) <==> old(ShiftFits(runs[..nr], l))
    ensures Proper(runs[..n]) ==> Pixels(runs[..n]) == old(Laid(runs[..nr], l))
  {
    hide Width, Pixels, ScaledTo, ScaledRuns, Same, Padded, Shifted, Widened, Laid;
    ghost var line := runs[..nr];
    var pels := LineWidth(runs, nr);
    WidthIs(line);
    WidthScaled(line);
    if l.xs != 256 {
      pels := XScale(runs, nr, l.xs);
      assert line[..nr] == line && runs[..nr][..nr] == runs[..nr];
      ScaledRunsAre(line, runs[..nr], l.xs) by {
        forall k | 0 <= k <= nr ensures runs[..nr][..k] == runs[..k] {}
      }
    } else {
      SameScale(line);
    }
    ghost var scaled := runs[..nr];
    WidthIs(scaled);
    if l.xshift != 0 {
      var change := XShift(runs, nr, l.xshift);
      pels := pels + change;
    } else {
      NoShift(Pixels(scaled));
    }
    n := nr;
    ghost var shifted := runs[..nr];
    if pels != l.w { n := XPad(runs, nr, l.w - pels); }
    Laying(line, scaled, shifted, runs[..n], l);
  }

  /** The line made by scaling, shifting and padding. */
  lemma Laying(line: seq<int>, scaled: seq<int>, shifted: seq<int>, made: seq<int>, l: Layout)
    requires LineOk(line, l) && scaled == ScaledRuns(line, l.xs) && Proper(scaled)
    requires |shifted| == |line| && Width(scaled) == ScaledTo(Width(line), l.xs)
    requires Width(shifted) == Width(scaled) + (if line == [] then 0 else l.xshift)
    requires Proper(shifted) <==> -l.xshift <= Width(scaled)
    requires line != [] && -l.xshift <= Width(scaled) ==> Pixels(shifted) == Shifted(Pixels(scaled), l.xshift)
    requires -l.xshift > Width(scaled) ==> OnlyLast(shifted, Width(shifted))
    requires Width(shifted) == l.w ==> made == shifted
    requires Proper(shifted) && Width(shifted) != l.w ==>
      Proper(made) && Pixels(made) == Padded(Pixels(shifted), l.w - Width(shifted))
    requires Width(shifted) < l.w ==> made == Widened(shifted, l.w - Width(shifted))
    ensures Width(made) == l.w && (Proper(made) <==> ShiftFits(line, l))
    ensures Proper(made) ==> Pixels(made) == Laid(line, l)
  {
    hide Width, Pixels, ScaledTo, ScaledRuns, Same, Padded, Shifted, Widened, Laid, OnlyLast, Proper, LineOk;
    if -l.xshift > Width(scaled) {
      LayingAway(line, scaled, shifted, made, l);
    } else {
      PaddedTo(shifted, made, l.w);
      LaidIsPadded(line, Pixels(shifted), l) by { if line == [] { NoPixels(); } }
    }
  }

  lemma LayingAway(line: seq<int>, scaled: seq<int>, shifted: seq<int>, made: seq<int>, l: Layout)
    requires scaled == ScaledRuns(line, l.xs) && Proper(scaled) && -l.xshift > Width(scaled)
    requires |shifted| == |line| && OnlyLast(shifted, Width(shifted)) && Width(shifted) == Width(scaled) + l.xshift
    requires made == Widened(shifted, l.w - Width(shifted))
    ensures Width(made) == l.w && (Proper(made) <==> |line| % 2 == 1)
    ensures Proper(made) ==> Pixels(made) == Laid(line, l)
  {
    hide Width, Pixels, ScaledRuns, Same, Widened, Laid, OnlyLast, Proper;
    WidthIs(scaled);
    ShiftedAway(shifted, Width(shifted), l.w);
    WidenedWidth(shifted, l.w - Width(shifted));
    LaidWhite(line, l);
  }

  lemma PaddedTo(shifted: seq<int>, made: seq<int>, w: nat)
    requires Proper(shifted) && (Width(shifted) == w ==> made == shifted)
    requires Width(shifted) != w ==> Proper(made) && Pixels(made) == Padded(Pixels(shifted), w - Width(shifted))
    ensures Proper(made) && Width(made) == w && Pixels(made) == Padded(Pixels(shifted), w - |Pixels(shifted)|)
  {
    hide Width, Pixels, Proper, Padded;
    WidthIs(shifted);
    PaddedWidth(Pixels(shifted), w);
    WidthIs(made);
  }

  lemma LaidIsPadded(line: seq<int>, p: seq<bool>, l: Layout)
    requires if line == [] then p == [] else p == Shifted(Pixels(ScaledRuns(line, l.xs)), l.xshift)
    ensures Laid(line, l) == Padded(p, l.w - |p|)
  {
    hide Pixels, ScaledRuns, Shifted, Padded;
    if line == [] {
      LaidWhite(line, l);
      PaddedNone(l.w);
    }
  }

  lemma PaddedNone(w: nat)
    ensures Padded([], w) == Same(false, w)
  {
  }

  lemma PaddedWidth(p: seq<bool>, w: nat)
    ensures |Padded(p, w - |p|)| == w && (|p| == w ==> Padded(p, 0) == p)
  {
  }

  lemma NoShift(p: seq<bool>)
    ensures Shifted(p, 0) == p
  {
  }

  lemma WidthScaled(line: seq<int>)
    ensures ScaledTo(Width(line), 256) == Width(line)
  {
  }

  method LineWidth(runs: array<int>, nr: nat) returns (w: int)
    requires nr <= runs.Length
    ensures w == Width(runs[..nr])
  {
    w := 0;
    var i := 0;
    while i < nr
      invariant 0 <= i <= nr && w == Width(runs[..i])
    {
      assert runs[..i + 1][..i] == runs[..i];
      w := w + runs[i];
      i := i + 1;
    }
  }

  method Load(line: seq<int>, runs: array<int>)
    requires |line| < runs.Length
    modifies runs
    ensures runs[..|line|] == line
  {
    var i := 0;
    while i < |line|
      invariant 0 <= i <= |line| && runs[..i] == line[..i]
    {
      runs[i] := line[i];
      i := i + 1;
    }
  }

  /** Lay out a page. The lines made are those of the input that were read, each laid to w pixels. */
  method LayPage(input: seq<seq<int>>, l: Layout) returns (out: seq<seq<int>>, ghost made: seq<seq<int>>)
    requires forall i :: 0 <= i < |input| ==> LineOk(input[i], l)
    ensures out == Page(made, l) && |made| <= |input| - Skipped(input, l)
    ensures |out| == if Upper(l.yshift) > l.h then Upper(l.yshift) else l.h
    ensures forall i :: 0 <= i < |out| ==> Width(out[i]) == l.w
    ensures forall i :: 0 <= i < |made| ==> IsLaid(made[i], input[Skipped(input, l) + i], l)
    ensures |out| > Upper(l.yshift) + LinesFor(|made|, l.ys) ==> |made| == |input| - Skipped(input, l)
    ensures l.yshift >= l.h ==> made == []
  {
    hide Width, LinesFor, ScaledTo, IsLaid, Pixels, Page, Body, Filled, ShiftFits, Laid, Proper, Copies;
    var runs := new int[MAXRUNS];
    made, out := [], Copies([l.w], Upper(l.yshift));
    var next := Skipped(input, l);
    var olines, ilines := 0, 0;
    ghost var start, margin := next, out;
    BlankLine(l.w);
    NoLines(l.ys);
    Unfilled(margin, l.h);
    while |out| < l.h
      invariant 0 <= start <= next <= |input| && |made| == ilines == next - start
      invariant |out| < l.h ==> olines == LinesFor(ilines, l.ys)
      invariant out == Filled(margin, Body(made, l.ys), l.h)
      invariant forall i :: 0 <= i < |out| ==> Width(out[i]) == l.w
      invariant forall i :: 0 <= i < |made| ==> IsLaid(made[i], input[start + i], l)
      invariant |margin| >= l.h ==> made == []
      decreases |input| - next
    {
      if next == |input| { break; }
      assert LineOk(input[next], l);
      Load(input[next], runs);
      var nr := LayLine(runs, |input[next]|, l);
      LaidIs(runs[..nr], input[next], l);
      next := next + 1;
      ilines := ilines + 1;
      var line := runs[..nr];
      var no := LinesFor(ilines, l.ys) - olines;
      LinesInOrder(ilines - 1, l.ys);
      BodySnoc(made, line, l.ys);
      FilledCopies(margin, Body(made, l.ys), line, no, l.h);
      if |out| + no > l.h { no := l.h - |out|; }
      olines := olines + no;
      out := out + Copies(line, no);
      made := made + [line];
    }
    BodyLength(made, l.ys);
    PageIs(made, l);
    if |out| < l.h { out := out + Copies([l.w], l.h - |out|); }
  }

  /** Every page has exactly h lines, unless its top margin is larger. */
  lemma ExactlyH(made: seq<seq<int>>, l: Layout)
    ensures |Page(made, l)| == l.h <==> l.yshift <= l.h
  {
  }

  /** Without negative runs in the lines made there are none on the page. */
  lemma {:induction false} BodyProper(made: seq<seq<int>>, ys: nat)
    requires forall i :: 0 <= i < |made| ==> Proper(made[i])
    ensures forall i :: 0 <= i < |Body(made, ys)| ==> Proper(Body(made, ys)[i])
  {
    hide LinesFor;
    if made != [] { BodyProper(made[..|made| - 1], ys); }
  }

  lemma PageProper(made: seq<seq<int>>, l: Layout)
    requires forall i :: 0 <= i < |made| ==> Proper(made[i])
    ensures forall i :: 0 <= i < |Page(made, l)| ==> Proper(Page(made, l)[i])
  {
    hide Body;
    BodyProper(made, l.ys);
  }

  /** A margin of three lines on a page of two: three lines. */
  lemma LargeMargin()
    ensures var l := Layout(8, 2, 256, 256, 0, 3); Page([], l) == [[8], [8], [8]] && |Page([], l)| != l.h
  {
  }

  /**
   The line stands for the input line as laid on the page, w pixels wide; it has a negative run only if the shift
   takes the line away and its last run is black.
   */
  ghost predicate IsLaid(made: seq<int>, line: seq<int>, l: Layout) {
    && Width(made) == l.w && (Proper(made) <==> ShiftFits(line, l))
    && (Proper(made) ==> Pixels(made) == Laid(line, l))
  }

  lemma LaidIs(made: seq<int>, line: seq<int>, l: Layout)
    requires Width(made) == l.w && (Proper(made) <==> ShiftFits(line, l))
    requires Proper(made) ==> Pixels(made) == Laid(line, l)
    ensures IsLaid(made, line, l)
  {
  }

  /** A line of eight black pixels shifted left by nine: every line made from it has a negative run. */
  lemma BlackShiftedAway(made: seq<int>)
    ensures var l := Layout(8, 1, 256, 256, -9, 0);
      LineOk([0, 8], l) && !ShiftFits([0, 8], l) && (IsLaid(made, [0, 8], l) ==> !Proper(made))
    ensures IsLaid([0, -1, 9], [0, 8], Layout(8, 1, 256, 256, -9, 0))
  {
    hide Laid;
    WidthOfTwo();
  }

  lemma WidthOfTwo()
    ensures Width([0, 8]) == 8 && Width([0, -1, 9]) == 8
  {
    assert [0, 8][..1] == [0] && [0][..0] == [] && [0, -1, 9][..2] == [0, -1] && [0, -1][..1] == [0];
    assert Width([0]) == 0;
  }

  /** Input lines skipped for a shift upwards. */
  function Skipped(input: seq<seq<int>>, l: Layout): (n: nat)
    ensures n <= |input|
  {
    if l.yshift >= 0 then 0 else if -l.yshift <= |input| then -l.yshift else |input|
  }

  lemma PageIs(made: seq<seq<int>>, l: Layout)
    ensures var top := Filled(Copies([l.w], Upper(l.yshift)), Body(made, l.ys), l.h);
      Page(made, l) == if |top| < l.h then top + Copies([l.w], l.h - |top|) else top
  {
    hide Body, Filled;
  }

  lemma BlankLine(w: nat)
    ensures Width([w]) == w
  {
    assert [w][..0] == [];
  }

  lemma NoLines(ys: nat)
    ensures LinesFor(0, ys) == 0 && Body([], ys) == []
  {
  }

  /** One more line made, while the page is not full. */
  lemma FilledCopies(margin: seq<seq<int>>, body: seq<seq<int>>, line: seq<int>, due: nat, h: nat)
    requires |Filled(margin, body, h)| < h
    ensures var out := Filled(margin, body, h);
      Filled(margin, body + Copies(line, due), h) == out + Copies(line, if |out| + due > h then h - |out| else due)
  {
    hide Copies;
    Regroup(margin, body, Copies(line, due));
    CutCopies(margin + body, line, due, h);
  }

  lemma Regroup(a: seq<seq<int>>, b: seq<seq<int>>, c: seq<seq<int>>)
    ensures a + (b + c) == a + b + c
  {
  }

  lemma Unfilled(margin: seq<seq<int>>, h: nat)
    ensures Filled(margin, [], h) == margin
  {
    assert margin + [] == margin;
  }

  lemma BodySnoc(made: seq<seq<int>>, line: seq<int>, ys: nat)
    requires LinesFor(|made|, ys) <= LinesFor(|made| + 1, ys)
    ensures Body(made + [line], ys) == Body(made, ys) + Copies(line, LinesFor(|made| + 1, ys) - LinesFor(|made|, ys))
  {
    hide LinesFor, Copies;
    assert (made + [line])[..|made|] == made;
  }

  lemma CutCopies(out: seq<seq<int>>, line: seq<int>, due: nat, h: nat)
    requires |out| < h
    ensures var more := out + Copies(line, due);
      (if |more| <= h then more else more[..h]) == out + Copies(line, if |out| + due > h then h - |out| else due)
  {
  }
}
