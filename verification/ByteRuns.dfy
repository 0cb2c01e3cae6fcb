/** The run lengths of each byte: the table of lists, and that it holds the maximal runs. */
module ByteRuns {
  import opened Bits
  import opened Runs
  import opened RunOr

  function Power(b: nat): (p: nat)
    requires b <= 8
    ensures p >= 1
  {
    if b == 0 then 1 else if b == 1 then 2 else if b == 2 then 4 else if b == 3 then 8 else if b == 4 then 16
    else if b == 5 then 32 else if b == 6 then 64 else if b == 7 then 128 else 256
  }

  /** The pixel of weight 2^i in a byte. */
  function PixelAt(c: byte, i: nat): bool
    requires i < 8
  {
    c / Power(i) % 2 == 1
  }

  /** The pixels of a byte. */
  function Row(c: byte): (p: seq<bool>)
    ensures |p| == 8 && forall i :: 0 <= i < 8 ==> p[i] == PixelAt(c, 7 - i)
  {
    seq(8, i requires 0 <= i < 8 => PixelAt(c, 7 - i))
  }

  // ----- runs of a byte -----

  /** The lengths of the maximal runs of equal pixels. */
  function MaxRuns(p: seq<bool>): (q: seq<int>)
    ensures (q == [] <==> p == []) && forall i :: 0 <= i < |q| ==> q[i] >= 1
  {
    if |p| <= 1 then (if p == [] then [] else [1]) else
      var n := |p| - 1;
      var q := MaxRuns(p[..n]);
      if p[n] == p[n - 1] then q[|q| - 1 := q[|q| - 1] + 1] else q + [1]
  }

  /** Runs of alternating colours as pixels. */
  function Alternating(q: seq<int>, black: bool): seq<bool> {
    if q == [] then [] else
      var n := |q| - 1;
      Alternating(q[..n], black) + Same(Colour(black, n), Length(q[n]))
  }

  lemma AlternatingSnoc(q: seq<int>, black: bool, n: int)
    ensures Alternating(q + [n], black) == Alternating(q, black) + Same(Colour(black, |q|), Length(n))
  {
    assert (q + [n])[..|q|] == q;
  }

  /** The colour of run k when the first is `black`. */
  function Colour(black: bool, k: nat): bool {
    if k % 2 == 0 then black else !black
  }

  /** q stands for the pixels p. */
  predicate StandsFor(q: seq<int>, p: seq<bool>) {
    p != [] && q != [] && Proper(q) && Alternating(q, p[0]) == p && p[|p| - 1] == Colour(p[0], |q| - 1)
  }

  lemma SameColourNext(q: seq<int>, p: seq<bool>)
    requires StandsFor(q, p)
    ensures var k := |q| - 1; StandsFor(q[k := q[k] + 1], p + [p[|p| - 1]])
  {
    hide Same, Alternating;
    var k, c := |q| - 1, p[|p| - 1];
    var init := q[..k];
    assert q == init + [q[k]] && q[k := q[k] + 1] == init + [q[k] + 1];
    AlternatingSnoc(init, p[0], q[k]);
    AlternatingSnoc(init, p[0], q[k] + 1);
    SameConcat(c, q[k], 1);
    SameOne(c);
    Assoc(Alternating(init, p[0]), Same(c, q[k]), Same(c, 1));
  }

  lemma OtherColourNext(q: seq<int>, p: seq<bool>)
    requires StandsFor(q, p)
    ensures StandsFor(q + [1], p + [!p[|p| - 1]])
  {
    hide Same, Alternating;
    AlternatingSnoc(q, p[0], 1);
    SameOne(!p[|p| - 1]);
  }

  lemma {:induction false} MaxRunsStandFor(p: seq<bool>)
    requires p != []
    ensures StandsFor(MaxRuns(p), p)
  {
    hide Same, Alternating, StandsFor;
    var n := |p| - 1;
    if n == 0 {
      FirstPixel(p);
    } else {
      MaxRunsStandFor(p[..n]);
      SameColourNext(MaxRuns(p[..n]), p[..n]);
      OtherColourNext(MaxRuns(p[..n]), p[..n]);
      assert p == p[..n] + [p[n]];
    }
  }

  lemma FirstPixel(p: seq<bool>)
    requires |p| == 1
    ensures StandsFor([1], p)
  {
    OneRun(p[0]);
    assert p == [p[0]];
  }

  lemma SameOne(c: bool)
    ensures Same(c, 1) == [c]
  {
  }

  lemma OneRun(c: bool)
    ensures Alternating([1], c) == [c]
  {
    assert Alternating([], c) == [];
  }

  // ----- the table -----

  /** A list of up to eight runs, ended by zeros. */
  datatype Entry = Entry(a: int, b: int, c: int, d: int, e: int, f: int, g: int, h: int)

  /** The weight in a byte of the last of its first n pixels. */
  function Weight(n: int): (w: nat)
    ensures w >= 1
    decreases 8 - n
  {
    if n >= 8 then 1 else 2 * Weight(n + 1)
  }

  /** The number written by the runs when the second, fourth, ... are black. */
  function EvenRuns(a: int, b: int, c: int, d: int, e: int, f: int, g: int): int {
    Weight(a) - Weight(a + b) + Weight(a + b + c) - Weight(a + b + c + d)
    + Weight(a + b + c + d + e) - Weight(a + b + c + d + e + f) + Weight(a + b + c + d + e + f + g) - Weight(8)
  }

  /** Eight pixels in all, and zeros only at the end. */
  predicate Shape(a: int, b: int, c: int, d: int, e: int, f: int, g: int, h: int) {
    && 1 <= a && 0 <= b && 0 <= c && 0 <= d && 0 <= e && 0 <= f && 0 <= g && 0 <= h
    && a + b + c + d + e + f + g + h == 8
    && (b == 0 ==> c == 0) && (c == 0 ==> d == 0) && (d == 0 ==> e == 0) && (e == 0 ==> f == 0) && (f == 0 ==> g == 0)
    && (g == 0 ==> h == 0)
  }

  /** These runs make up byte v. */
  predicate RightRuns(v: int, a: int, b: int, c: int, d: int, e: int, f: int, g: int, h: int) {
    Shape(a, b, c, d, e, f, g, h) && EvenRuns(a, b, c, d, e, f, g) == if v >= 128 then 255 - v else v
  }

  predicate Right(v: int, t: Entry) {
    RightRuns(v, t.a, t.b, t.c, t.d, t.e, t.f, t.g, t.h)
  }

  /** The list of byte v. */
  function Of(v: int, a: int, b: int, c: int, d: int, e: int, f: int, g: int, h: int): (t: Entry)
    requires RightRuns(v, a, b, c, d, e, f, g, h)
    ensures Right(v, t)
  {
    Entry(a, b, c, d, e, f, g, h)
  }

  function Lists0(k: nat): (r: seq<Entry>)
    requires k == 0 || k == 1
    ensures |r| == 8
  {
    if k == 0 then
      [Of(0, 8, 0, 0, 0, 0, 0, 0, 0), Of(1, 7, 1, 0, 0, 0, 0, 0, 0), Of(2, 6, 1, 1, 0, 0, 0, 0, 0),
       Of(3, 6, 2, 0, 0, 0, 0, 0, 0), Of(4, 5, 1, 2, 0, 0, 0, 0, 0), Of(5, 5, 1, 1, 1, 0, 0, 0, 0),
       Of(6, 5, 2, 1, 0, 0, 0, 0, 0), Of(7, 5, 3, 0, 0, 0, 0, 0, 0)]
    else
      [Of(8, 4, 1, 3, 0, 0, 0, 0, 0), Of(9, 4, 1, 2, 1, 0, 0, 0, 0), Of(10, 4, 1, 1, 1, 1, 0, 0, 0),
       Of(11, 4, 1, 1, 2, 0, 0, 0, 0), Of(12, 4, 2, 2, 0, 0, 0, 0, 0), Of(13, 4, 2, 1, 1, 0, 0, 0, 0),
       Of(14, 4, 3, 1, 0, 0, 0, 0, 0), Of(15, 4, 4, 0, 0, 0, 0, 0, 0)]
  }

  function Lists2(k: nat): (r: seq<Entry>)
    requires k == 2 || k == 3
    ensures |r| == 8
  {
    if k == 2 then
      [Of(16, 3, 1, 4, 0, 0, 0, 0, 0), Of(17, 3, 1, 3, 1, 0, 0, 0, 0), Of(18, 3, 1, 2, 1, 1, 0, 0, 0),
       Of(19, 3, 1, 2, 2, 0, 0, 0, 0), Of(20, 3, 1, 1, 1, 2, 0, 0, 0), Of(21, 3, 1, 1, 1, 1, 1, 0, 0),
       Of(22, 3, 1, 1, 2, 1, 0, 0, 0), Of(23, 3, 1, 1, 3, 0, 0, 0, 0)]
    else
      [Of(24, 3, 2, 3, 0, 0, 0, 0, 0), Of(25, 3, 2, 2, 1, 0, 0, 0, 0), Of(26, 3, 2, 1, 1, 1, 0, 0, 0),
       Of(27, 3, 2, 1, 2, 0, 0, 0, 0), Of(28, 3, 3, 2, 0, 0, 0, 0, 0), Of(29, 3, 3, 1, 1, 0, 0, 0, 0),
       Of(30, 3, 4, 1, 0, 0, 0, 0, 0), Of(31, 3, 5, 0, 0, 0, 0, 0, 0)]
  }

  function Lists4(k: nat): (r: seq<Entry>)
    requires k == 4 || k == 5
    ensures |r| == 8
  {
    if k == 4 then
      [Of(32, 2, 1, 5, 0, 0, 0, 0, 0), Of(33, 2, 1, 4, 1, 0, 0, 0, 0), Of(34, 2, 1, 3, 1, 1, 0, 0, 0),
       Of(35, 2, 1, 3, 2, 0, 0, 0, 0), Of(36, 2, 1, 2, 1, 2, 0, 0, 0), Of(37, 2, 1, 2, 1, 1, 1, 0, 0),
       Of(38, 2, 1, 2, 2, 1, 0, 0, 0), Of(39, 2, 1, 2, 3, 0, 0, 0, 0)]
    else
      [Of(40, 2, 1, 1, 1, 3, 0, 0, 0), Of(41, 2, 1, 1, 1, 2, 1, 0, 0), Of(42, 2, 1, 1, 1, 1, 1, 1, 0),
       Of(43, 2, 1, 1, 1, 1, 2, 0, 0), Of(44, 2, 1, 1, 2, 2, 0, 0, 0), Of(45, 2, 1, 1, 2, 1, 1, 0, 0),
       Of(46, 2, 1, 1, 3, 1, 0, 0, 0), Of(47, 2, 1, 1, 4, 0, 0, 0, 0)]
  }

  function Lists6(k: nat): (r: seq<Entry>)
    requires k == 6 || k == 7
    ensures |r| == 8
  {
    if k == 6 then
      [Of(48, 2, 2, 4, 0, 0, 0, 0, 0), Of(49, 2, 2, 3, 1, 0, 0, 0, 0), Of(50, 2, 2, 2, 1, 1, 0, 0, 0),
       Of(51, 2, 2, 2, 2, 0, 0, 0, 0), Of(52, 2, 2, 1, 1, 2, 0, 0, 0), Of(53, 2, 2, 1, 1, 1, 1, 0, 0),
       Of(54, 2, 2, 1, 2, 1, 0, 0, 0), Of(55, 2, 2, 1, 3, 0, 0, 0, 0)]
    else
      [Of(56, 2, 3, 3, 0, 0, 0, 0, 0), Of(57, 2, 3, 2, 1, 0, 0, 0, 0), Of(58, 2, 3, 1, 1, 1, 0, 0, 0),
       Of(59, 2, 3, 1, 2, 0, 0, 0, 0), Of(60, 2, 4, 2, 0, 0, 0, 0, 0), Of(61, 2, 4, 1, 1, 0, 0, 0, 0),
       Of(62, 2, 5, 1, 0, 0, 0, 0, 0), Of(63, 2, 6, 0, 0, 0, 0, 0, 0)]
  }

  function Lists8(k: nat): (r: seq<Entry>)
    requires k == 8 || k == 9
    ensures |r| == 8
  {
    if k == 8 then
      [Of(64, 1, 1, 6, 0, 0, 0, 0, 0), Of(65, 1, 1, 5, 1, 0, 0, 0, 0), Of(66, 1, 1, 4, 1, 1, 0, 0, 0),
       Of(67, 1, 1, 4, 2, 0, 0, 0, 0), Of(68, 1, 1, 3, 1, 2, 0, 0, 0), Of(69, 1, 1, 3, 1, 1, 1, 0, 0),
       Of(70, 1, 1, 3, 2, 1, 0, 0, 0), Of(71, 1, 1, 3, 3, 0, 0, 0, 0)]
    else
      [Of(72, 1, 1, 2, 1, 3, 0, 0, 0), Of(73, 1, 1, 2, 1, 2, 1, 0, 0), Of(74, 1, 1, 2, 1, 1, 1, 1, 0),
       Of(75, 1, 1, 2, 1, 1, 2, 0, 0), Of(76, 1, 1, 2, 2, 2, 0, 0, 0), Of(77, 1, 1, 2, 2, 1, 1, 0, 0),
       Of(78, 1, 1, 2, 3, 1, 0, 0, 0), Of(79, 1, 1, 2, 4, 0, 0, 0, 0)]
  }

  function Lists10(k: nat): (r: seq<Entry>)
    requires k == 10 || k == 11
    ensures |r| == 8
  {
    if k == 10 then
      [Of(80, 1, 1, 1, 1, 4, 0, 0, 0), Of(81, 1, 1, 1, 1, 3, 1, 0, 0), Of(82, 1, 1, 1, 1, 2, 1, 1, 0),
       Of(83, 1, 1, 1, 1, 2, 2, 0, 0), Of(84, 1, 1, 1, 1, 1, 1, 2, 0), Of(85, 1, 1, 1, 1, 1, 1, 1, 1),
       Of(86, 1, 1, 1, 1, 1, 2, 1, 0), Of(87, 1, 1, 1, 1, 1, 3, 0, 0)]
    else
      [Of(88, 1, 1, 1, 2, 3, 0, 0, 0), Of(89, 1, 1, 1, 2, 2, 1, 0, 0), Of(90, 1, 1, 1, 2, 1, 1, 1, 0),
       Of(91, 1, 1, 1, 2, 1, 2, 0, 0), Of(92, 1, 1, 1, 3, 2, 0, 0, 0), Of(93, 1, 1, 1, 3, 1, 1, 0, 0),
       Of(94, 1, 1, 1, 4, 1, 0, 0, 0), Of(95, 1, 1, 1, 5, 0, 0, 0, 0)]
  }

  function Lists12(k: nat): (r: seq<Entry>)
    requires k == 12 || k == 13
    ensures |r| == 8
  {
    if k == 12 then
      [Of(96, 1, 2, 5, 0, 0, 0, 0, 0), Of(97, 1, 2, 4, 1, 0, 0, 0, 0), Of(98, 1, 2, 3, 1, 1, 0, 0, 0),
       Of(99, 1, 2, 3, 2, 0, 0, 0, 0), Of(100, 1, 2, 2, 1, 2, 0, 0, 0), Of(101, 1, 2, 2, 1, 1, 1, 0, 0),
       Of(102, 1, 2, 2, 2, 1, 0, 0, 0), Of(103, 1, 2, 2, 3, 0, 0, 0, 0)]
    else
      [Of(104, 1, 2, 1, 1, 3, 0, 0, 0), Of(105, 1, 2, 1, 1, 2, 1, 0, 0), Of(106, 1, 2, 1, 1, 1, 1, 1, 0),
       Of(107, 1, 2, 1, 1, 1, 2, 0, 0), Of(108, 1, 2, 1, 2, 2, 0, 0, 0), Of(109, 1, 2, 1, 2, 1, 1, 0, 0),
       Of(110, 1, 2, 1, 3, 1, 0, 0, 0), Of(111, 1, 2, 1, 4, 0, 0, 0, 0)]
  }

  function Lists14(k: nat): (r: seq<Entry>)
    requires k == 14 || k == 15
    ensures |r| == 8
  {
    if k == 14 then
      [Of(112, 1, 3, 4, 0, 0, 0, 0, 0), Of(113, 1, 3, 3, 1, 0, 0, 0, 0), Of(114, 1, 3, 2, 1, 1, 0, 0, 0),
       Of(115, 1, 3, 2, 2, 0, 0, 0, 0), Of(116, 1, 3, 1, 1, 2, 0, 0, 0), Of(117, 1, 3, 1, 1, 1, 1, 0, 0),
       Of(118, 1, 3, 1, 2, 1, 0, 0, 0), Of(119, 1, 3, 1, 3, 0, 0, 0, 0)]
    else
      [Of(120, 1, 4, 3, 0, 0, 0, 0, 0), Of(121, 1, 4, 2, 1, 0, 0, 0, 0), Of(122, 1, 4, 1, 1, 1, 0, 0, 0),
       Of(123, 1, 4, 1, 2, 0, 0, 0, 0), Of(124, 1, 5, 2, 0, 0, 0, 0, 0), Of(125, 1, 5, 1, 1, 0, 0, 0, 0),
       Of(126, 1, 6, 1, 0, 0, 0, 0, 0), Of(127, 1, 7, 0, 0, 0, 0, 0, 0)]
  }

  function Lists16(k: nat): (r: seq<Entry>)
    requires k == 16 || k == 17
    ensures |r| == 8
  {
    if k == 16 then
      [Of(128, 1, 7, 0, 0, 0, 0, 0, 0), Of(129, 1, 6, 1, 0, 0, 0, 0, 0), Of(130, 1, 5, 1, 1, 0, 0, 0, 0),
       Of(131, 1, 5, 2, 0, 0, 0, 0, 0), Of(132, 1, 4, 1, 2, 0, 0, 0, 0), Of(133, 1, 4, 1, 1, 1, 0, 0, 0),
       Of(134, 1, 4, 2, 1, 0, 0, 0, 0), Of(135, 1, 4, 3, 0, 0, 0, 0, 0)]
    else
      [Of(136, 1, 3, 1, 3, 0, 0, 0, 0), Of(137, 1, 3, 1, 2, 1, 0, 0, 0), Of(138, 1, 3, 1, 1, 1, 1, 0, 0),
       Of(139, 1, 3, 1, 1, 2, 0, 0, 0), Of(140, 1, 3, 2, 2, 0, 0, 0, 0), Of(141, 1, 3, 2, 1, 1, 0, 0, 0),
       Of(142, 1, 3, 3, 1, 0, 0, 0, 0), Of(143, 1, 3, 4, 0, 0, 0, 0, 0)]
  }

  function Lists18(k: nat): (r: seq<Entry>)
    requires k == 18 || k == 19
    ensures |r| == 8
  {
    if k == 18 then
      [Of(144, 1, 2, 1, 4, 0, 0, 0, 0), Of(145, 1, 2, 1, 3, 1, 0, 0, 0), Of(146, 1, 2, 1, 2, 1, 1, 0, 0),
       Of(147, 1, 2, 1, 2, 2, 0, 0, 0), Of(148, 1, 2, 1, 1, 1, 2, 0, 0), Of(149, 1, 2, 1, 1, 1, 1, 1, 0),
       Of(150, 1, 2, 1, 1, 2, 1, 0, 0), Of(151, 1, 2, 1, 1, 3, 0, 0, 0)]
    else
      [Of(152, 1, 2, 2, 3, 0, 0, 0, 0), Of(153, 1, 2, 2, 2, 1, 0, 0, 0), Of(154, 1, 2, 2, 1, 1, 1, 0, 0),
       Of(155, 1, 2, 2, 1, 2, 0, 0, 0), Of(156, 1, 2, 3, 2, 0, 0, 0, 0), Of(157, 1, 2, 3, 1, 1, 0, 0, 0),
       Of(158, 1, 2, 4, 1, 0, 0, 0, 0), Of(159, 1, 2, 5, 0, 0, 0, 0, 0)]
  }

  function Lists20(k: nat): (r: seq<Entry>)
    requires k == 20 || k == 21
    ensures |r| == 8
  {
    if k == 20 then
      [Of(160, 1, 1, 1, 5, 0, 0, 0, 0), Of(161, 1, 1, 1, 4, 1, 0, 0, 0), Of(162, 1, 1, 1, 3, 1, 1, 0, 0),
       Of(163, 1, 1, 1, 3, 2, 0, 0, 0), Of(164, 1, 1, 1, 2, 1, 2, 0, 0), Of(165, 1, 1, 1, 2, 1, 1, 1, 0),
       Of(166, 1, 1, 1, 2, 2, 1, 0, 0), Of(167, 1, 1, 1, 2, 3, 0, 0, 0)]
    else
      [Of(168, 1, 1, 1, 1, 1, 3, 0, 0), Of(169, 1, 1, 1, 1, 1, 2, 1, 0), Of(170, 1, 1, 1, 1, 1, 1, 1, 1),
       Of(171, 1, 1, 1, 1, 1, 1, 2, 0), Of(172, 1, 1, 1, 1, 2, 2, 0, 0), Of(173, 1, 1, 1, 1, 2, 1, 1, 0),
       Of(174, 1, 1, 1, 1, 3, 1, 0, 0), Of(175, 1, 1, 1, 1, 4, 0, 0, 0)]
  }

  function Lists22(k: nat): (r: seq<Entry>)
    requires k == 22 || k == 23
    ensures |r| == 8
  {
    if k == 22 then
      [Of(176, 1, 1, 2, 4, 0, 0, 0, 0), Of(177, 1, 1, 2, 3, 1, 0, 0, 0), Of(178, 1, 1, 2, 2, 1, 1, 0, 0),
       Of(179, 1, 1, 2, 2, 2, 0, 0, 0), Of(180, 1, 1, 2, 1, 1, 2, 0, 0), Of(181, 1, 1, 2, 1, 1, 1, 1, 0),
       Of(182, 1, 1, 2, 1, 2, 1, 0, 0), Of(183, 1, 1, 2, 1, 3, 0, 0, 0)]
    else
      [Of(184, 1, 1, 3, 3, 0, 0, 0, 0), Of(185, 1, 1, 3, 2, 1, 0, 0, 0), Of(186, 1, 1, 3, 1, 1, 1, 0, 0),
       Of(187, 1, 1, 3, 1, 2, 0, 0, 0), Of(188, 1, 1, 4, 2, 0, 0, 0, 0), Of(189, 1, 1, 4, 1, 1, 0, 0, 0),
       Of(190, 1, 1, 5, 1, 0, 0, 0, 0), Of(191, 1, 1, 6, 0, 0, 0, 0, 0)]
  }

  function Lists24(k: nat): (r: seq<Entry>)
    requires k == 24 || k == 25
    ensures |r| == 8
  {
    if k == 24 then
      [Of(192, 2, 6, 0, 0, 0, 0, 0, 0), Of(193, 2, 5, 1, 0, 0, 0, 0, 0), Of(194, 2, 4, 1, 1, 0, 0, 0, 0),
       Of(195, 2, 4, 2, 0, 0, 0, 0, 0), Of(196, 2, 3, 1, 2, 0, 0, 0, 0), Of(197, 2, 3, 1, 1, 1, 0, 0, 0),
       Of(198, 2, 3, 2, 1, 0, 0, 0, 0), Of(199, 2, 3, 3, 0, 0, 0, 0, 0)]
    else
      [Of(200, 2, 2, 1, 3, 0, 0, 0, 0), Of(201, 2, 2, 1, 2, 1, 0, 0, 0), Of(202, 2, 2, 1, 1, 1, 1, 0, 0),
       Of(203, 2, 2, 1, 1, 2, 0, 0, 0), Of(204, 2, 2, 2, 2, 0, 0, 0, 0), Of(205, 2, 2, 2, 1, 1, 0, 0, 0),
       Of(206, 2, 2, 3, 1, 0, 0, 0, 0), Of(207, 2, 2, 4, 0, 0, 0, 0, 0)]
  }

  function Lists26(k: nat): (r: seq<Entry>)
    requires k == 26 || k == 27
    ensures |r| == 8
  {
    if k == 26 then
      [Of(208, 2, 1, 1, 4, 0, 0, 0, 0), Of(209, 2, 1, 1, 3, 1, 0, 0, 0), Of(210, 2, 1, 1, 2, 1, 1, 0, 0),
       Of(211, 2, 1, 1, 2, 2, 0, 0, 0), Of(212, 2, 1, 1, 1, 1, 2, 0, 0), Of(213, 2, 1, 1, 1, 1, 1, 1, 0),
       Of(214, 2, 1, 1, 1, 2, 1, 0, 0), Of(215, 2, 1, 1, 1, 3, 0, 0, 0)]
    else
      [Of(216, 2, 1, 2, 3, 0, 0, 0, 0), Of(217, 2, 1, 2, 2, 1, 0, 0, 0), Of(218, 2, 1, 2, 1, 1, 1, 0, 0),
       Of(219, 2, 1, 2, 1, 2, 0, 0, 0), Of(220, 2, 1, 3, 2, 0, 0, 0, 0), Of(221, 2, 1, 3, 1, 1, 0, 0, 0),
       Of(222, 2, 1, 4, 1, 0, 0, 0, 0), Of(223, 2, 1, 5, 0, 0, 0, 0, 0)]
  }

  function Lists28(k: nat): (r: seq<Entry>)
    requires k == 28 || k == 29
    ensures |r| == 8
  {
    if k == 28 then
      [Of(224, 3, 5, 0, 0, 0, 0, 0, 0), Of(225, 3, 4, 1, 0, 0, 0, 0, 0), Of(226, 3, 3, 1, 1, 0, 0, 0, 0),
       Of(227, 3, 3, 2, 0, 0, 0, 0, 0), Of(228, 3, 2, 1, 2, 0, 0, 0, 0), Of(229, 3, 2, 1, 1, 1, 0, 0, 0),
       Of(230, 3, 2, 2, 1, 0, 0, 0, 0), Of(231, 3, 2, 3, 0, 0, 0, 0, 0)]
    else
      [Of(232, 3, 1, 1, 3, 0, 0, 0, 0), Of(233, 3, 1, 1, 2, 1, 0, 0, 0), Of(234, 3, 1, 1, 1, 1, 1, 0, 0),
       Of(235, 3, 1, 1, 1, 2, 0, 0, 0), Of(236, 3, 1, 2, 2, 0, 0, 0, 0), Of(237, 3, 1, 2, 1, 1, 0, 0, 0),
       Of(238, 3, 1, 3, 1, 0, 0, 0, 0), Of(239, 3, 1, 4, 0, 0, 0, 0, 0)]
  }

  function Lists30(k: nat): (r: seq<Entry>)
    requires k == 30 || k == 31
    ensures |r| == 8
  {
    if k == 30 then
      [Of(240, 4, 4, 0, 0, 0, 0, 0, 0), Of(241, 4, 3, 1, 0, 0, 0, 0, 0), Of(242, 4, 2, 1, 1, 0, 0, 0, 0),
       Of(243, 4, 2, 2, 0, 0, 0, 0, 0), Of(244, 4, 1, 1, 2, 0, 0, 0, 0), Of(245, 4, 1, 1, 1, 1, 0, 0, 0),
       Of(246, 4, 1, 2, 1, 0, 0, 0, 0), Of(247, 4, 1, 3, 0, 0, 0, 0, 0)]
    else
      [Of(248, 5, 3, 0, 0, 0, 0, 0, 0), Of(249, 5, 2, 1, 0, 0, 0, 0, 0), Of(250, 5, 1, 1, 1, 0, 0, 0, 0),
       Of(251, 5, 1, 2, 0, 0, 0, 0, 0), Of(252, 6, 2, 0, 0, 0, 0, 0, 0), Of(253, 6, 1, 1, 0, 0, 0, 0, 0),
       Of(254, 7, 1, 0, 0, 0, 0, 0, 0), Of(255, 8, 0, 0, 0, 0, 0, 0, 0)]
  }

  /** The lists of bytes 8k to 8k + 7. */
  function Lists(k: nat): (r: seq<Entry>)
    requires k < 32
    ensures |r| == 8
  {
    if k < 2 then Lists0(k)
    else if k < 4 then Lists2(k)
    else if k < 6 then Lists4(k)
    else if k < 8 then Lists6(k)
    else if k < 10 then Lists8(k)
    else if k < 12 then Lists10(k)
    else if k < 14 then Lists12(k)
    else if k < 16 then Lists14(k)
    else if k < 18 then Lists16(k)
    else if k < 20 then Lists18(k)
    else if k < 22 then Lists20(k)
    else if k < 24 then Lists22(k)
    else if k < 26 then Lists24(k)
    else if k < 28 then Lists26(k)
    else if k < 30 then Lists28(k)
    else Lists30(k)
  }

  predicate AllRight(k: nat)
    requires k < 32
  {
    forall i :: 0 <= i < 8 ==> Right(8 * k + i, Lists(k)[i])
  }

  lemma Right0(k: nat)
    requires 0 <= k < 8
    ensures AllRight(k)
  {
    hide Right, RightRuns;
  }

  lemma Right1(k: nat)
    requires 8 <= k < 16
    ensures AllRight(k)
  {
    hide Right, RightRuns;
  }

  lemma Right2(k: nat)
    requires 16 <= k < 24
    ensures AllRight(k)
  {
    hide Right, RightRuns;
  }

  lemma Right3(k: nat)
    requires 24 <= k < 32
    ensures AllRight(k)
  {
    hide Right, RightRuns;
  }

  function All(t: Entry): (r: seq<int>)
    ensures |r| == 8
  {
    [t.a, t.b, t.c, t.d, t.e, t.f, t.g, t.h]
  }

  /** The runs before the first zero, from run i on. */
  function UpToZero(q: seq<int>, i: nat): (r: seq<int>)
    requires i <= |q|
    ensures |r| <= |q| - i && forall k :: 0 <= k < |r| ==> r[k] == q[i + k] && r[k] != 0
    ensures i + |r| < |q| ==> q[i + |r|] == 0
    decreases |q| - i
  {
    if i == |q| || q[i] == 0 then [] else [q[i]] + UpToZero(q, i + 1)
  }

  /** The runs listed for a byte. */
  function RunList(c: byte): seq<int> {
    UpToZero(All(Lists(c / 8)[c % 8]), 0)
  }

  // ----- what the lists stand for -----

  /** The number whose binary digits are the pixels. */
  function NumberOf(p: seq<bool>): nat {
    if p == [] then 0 else 2 * NumberOf(p[..|p| - 1]) + if p[|p| - 1] then 1 else 0
  }

  /** The low bits of a number below p do not reach the bits from p on. */
  lemma DropLow(q: nat, p: nat, h: nat, r: nat)
    requires p >= 1 && h >= 1 && r < p
    ensures h * p >= 1 && (q * p + r) / (h * p) == q / h
  {
    var y, k := q / h, q % h;
    MulAtLeast(h, p);
    MulAdd(y * h, k, p);
    MulAssoc(y, h, p);
    MulLe(k + 1, h, p);
    MulAdd(k, 1, p);
    DivModUnique(q * p + r, h * p, y, k * p + r);
  }

  lemma DigitsAfter(x: nat, b: bit, i: nat)
    requires i < 8
    ensures (2 * x + b) / Power(i) % 2 == if i == 0 then b else x / Power(i - 1) % 2
  {
    if i > 0 {
      assert Power(i) == Power(i - 1) * 2;
      DropLow(x, 2, Power(i - 1), b);
    }
  }

  lemma {:induction false} DigitOf(p: seq<bool>, i: nat)
    requires i < |p| <= 8
    ensures NumberOf(p) / Power(i) % 2 == if p[|p| - 1 - i] then 1 else 0
  {
    hide Power, NumberOf;
    var n := |p| - 1;
    var init := p[..n];
    assert p == init + [p[n]];
    NumberSnoc(init, p[n]);
    DigitsAfter(NumberOf(init), if p[n] then 1 else 0, i);
    if i > 0 { DigitOf(init, i - 1); }
  }

  lemma {:induction false} NumberBound(p: seq<bool>)
    requires |p| <= 8
    ensures NumberOf(p) < Power(|p|)
  {
    if p != [] { NumberBound(p[..|p| - 1]); }
  }

  /** Eight pixels are those of the byte they write. */
  lemma NumberTells(p: seq<bool>)
    requires |p| == 8
    ensures NumberOf(p) < 256 && Row(NumberOf(p)) == p
  {
    hide NumberOf;
    NumberBound(p);
    forall i | 0 <= i < 8 ensures Row(NumberOf(p))[i] == p[i] {
      DigitOf(p, 7 - i);
    }
  }

  lemma OneMorePixel(a: seq<bool>, c: bool, m: nat)
    requires m >= 1
    ensures a + Same(c, m) == a + Same(c, m - 1) + [c] && a + Same(c, 0) == a
    ensures m > 1 ==> var p := a + Same(c, m - 1); p != [] && p[|p| - 1] == c
  {
  }

  lemma NumberSnoc(p: seq<bool>, x: bool)
    ensures NumberOf(p + [x]) == 2 * NumberOf(p) + if x then 1 else 0
  {
    assert (p + [x])[..|p|] == p;
  }

  /** A number with n more binary digits of one colour. */
  function Step(v: nat, black: bool, n: nat): nat
    requires n <= 8
  {
    v * Power(n) + if black then Power(n) - 1 else 0
  }

  lemma {:induction false} NumberSame(a: seq<bool>, c: bool, n: nat)
    requires n <= 8
    ensures NumberOf(a + Same(c, n)) == Step(NumberOf(a), c, n)
  {
    hide Same, Step, NumberOf;
    if n == 0 {
      OneMorePixel(a, c, 1);
      NoDigits(NumberOf(a), c);
    } else {
      NumberSame(a, c, n - 1);
      OneMorePixel(a, c, n);
      NumberSnoc(a + Same(c, n - 1), c);
      OneMoreDigit(NumberOf(a), c, n);
    }
  }

  lemma NoDigits(v: nat, c: bool)
    ensures Step(v, c, 0) == v
  {
  }

  lemma OneMoreDigit(v: nat, c: bool, n: nat)
    requires 1 <= n <= 8
    ensures Step(v, c, n) == 2 * Step(v, c, n - 1) + if c then 1 else 0
  {
    var p := Power(n - 1);
    assert Power(n) == 2 * p;
    assert v * (2 * p) == 2 * (v * p);
  }

  /** The number written by the first i runs of eight pixels, as it stands in the byte. */
  function Value(q: seq<int>, black: bool, i: nat): int
    requires i <= |q|
  {
    if i == 0 then 0 else
      Value(q, black, i - 1) + if Colour(black, i - 1) then Weight(Total(q, i - 1)) - Weight(Total(q, i)) else 0
  }

  function Total(q: seq<int>, i: nat): int
    requires i <= |q|
  {
    if i == 0 then 0 else Total(q, i - 1) + q[i - 1]
  }

  lemma {:induction false} WeightRatio(t: nat, n: nat)
    requires t + n <= 8
    ensures Power(n) * Weight(t + n) == Weight(t)
  {
    if n > 0 {
      WeightRatio(t, n - 1);
      assert Power(n) == 2 * Power(n - 1);
      MulAssoc(Power(n - 1), 2, Weight(t + n));
    }
  }

  lemma WeightStep(v: nat, t: nat, n: nat, c: bool)
    requires t + n <= 8
    ensures Step(v, c, n) * Weight(t + n) == v * Weight(t) + if c then Weight(t) - Weight(t + n) else 0
  {
    hide Power, Weight;
    WeightRatio(t, n);
    var p, w := Power(n), Weight(t + n);
    MulAssoc(v, p, w);
    assert (v * p + p - 1) * w == v * p * w + p * w - w;
  }

  lemma {:induction false} TotalSoFar(q: seq<int>, i: nat, j: nat)
    requires i <= j <= |q| && Proper(q)
    ensures 0 <= Total(q, i) <= Total(q, j)
    decreases j
  {
    if i < j { TotalSoFar(q, i, j - 1); } else if i > 0 { TotalSoFar(q, i - 1, i - 1); }
  }

  /** The value and the total are those of the pixels. */
  lemma {:induction false} ValueOf(q: seq<int>, black: bool, i: nat)
    requires i <= |q| && Proper(q) && Total(q, |q|) == 8
    ensures NumberOf(Alternating(q[..i], black)) * Weight(Total(q, i)) == Value(q, black, i)
    ensures |Alternating(q[..i], black)| == Total(q, i)
  {
    hide NumberOf, Step, Same, Alternating, Weight;
    if i == 0 {
      Nothing(black);
      assert q[..0] == [];
    } else {
      ValueOf(q, black, i - 1);
      TotalSoFar(q, i - 1, i - 1);
      TotalSoFar(q, i, |q|);
      assert q[..i] == q[..i - 1] + [q[i - 1]];
      var a := Alternating(q[..i - 1], black);
      AlternatingSnoc(q[..i - 1], black, q[i - 1]);
      NumberSame(a, Colour(black, i - 1), q[i - 1]);
      WeightStep(NumberOf(a), Total(q, i - 1), q[i - 1], Colour(black, i - 1));
    }
  }

  lemma Nothing(black: bool)
    ensures Alternating([], black) == [] && NumberOf([]) == 0
  {
  }

  function Even(t: Entry): int {
    EvenRuns(t.a, t.b, t.c, t.d, t.e, t.f, t.g)
  }

  lemma Totals(t: Entry)
    ensures var q := All(t);
      && Total(q, 0) == 0 && Total(q, 1) == t.a && Total(q, 2) == t.a + t.b && Total(q, 3) == t.a + t.b + t.c
      && Total(q, 4) == t.a + t.b + t.c + t.d && Total(q, 5) == t.a + t.b + t.c + t.d + t.e
      && Total(q, 6) == t.a + t.b + t.c + t.d + t.e + t.f && Total(q, 7) == t.a + t.b + t.c + t.d + t.e + t.f + t.g
      && Total(q, 8) == t.a + t.b + t.c + t.d + t.e + t.f + t.g + t.h
  {
  }

  lemma EvenIs(t: Entry)
    ensures var q := All(t);
      Even(t) == Weight(Total(q, 1)) - Weight(Total(q, 2)) + Weight(Total(q, 3)) - Weight(Total(q, 4))
                 + Weight(Total(q, 5)) - Weight(Total(q, 6)) + Weight(Total(q, 7)) - Weight(8)
  {
    hide Weight, Total, All;
    Totals(t);
  }

  lemma TwoRuns(q: seq<int>, black: bool, i: nat)
    requires i + 2 <= |q| && i % 2 == 0
    ensures Value(q, black, i + 2) - Value(q, black, i)
         == if black then Weight(Total(q, i)) - Weight(Total(q, i + 1))
            else Weight(Total(q, i + 1)) - Weight(Total(q, i + 2))
  {
    hide Weight, Total;
    assert Value(q, black, i + 1) - Value(q, black, i)
        == if black then Weight(Total(q, i)) - Weight(Total(q, i + 1)) else 0;
  }

  /** The eight runs of a list, zeros included. */
  lemma EightRuns(t: Entry, black: bool)
    requires Shape(t.a, t.b, t.c, t.d, t.e, t.f, t.g, t.h)
    ensures Total(All(t), 8) == 8
    ensures Value(All(t), black, 8) == if black then 255 - Even(t) else Even(t)
  {
    hide Weight, Value, Total, All, Even;
    var q := All(t);
    Totals(t);
    EvenIs(t);
    EndWeights();
    assert Value(q, black, 0) == 0 by { NoValue(q, black); }
    TwoRuns(q, black, 0);
    TwoRuns(q, black, 2);
    TwoRuns(q, black, 4);
    TwoRuns(q, black, 6);
  }

  lemma NoValue(q: seq<int>, black: bool)
    ensures Value(q, black, 0) == 0
  {
  }

  lemma EndWeights()
    ensures Weight(0) == 256 && Weight(8) == 1
  {
  }

  /** Runs of no pixels at the end do not matter. */
  lemma {:induction false} ZerosAtEnd(q: seq<int>, black: bool, i: nat)
    requires i <= |q| && forall k :: i <= k < |q| ==> q[k] == 0
    ensures Alternating(q, black) == Alternating(q[..i], black)
    decreases |q|
  {
    if i < |q| {
      ZerosAtEnd(q[..|q| - 1], black, i);
      assert q[..|q| - 1][..i] == q[..i];
    } else {
      assert q[..i] == q;
    }
  }

  lemma ShapeZeros(t: Entry)
    requires Shape(t.a, t.b, t.c, t.d, t.e, t.f, t.g, t.h)
    ensures var n := |UpToZero(All(t), 0)|;
      && 1 <= n <= 8 && UpToZero(All(t), 0) == All(t)[..n]
      && (forall k :: n <= k < 8 ==> All(t)[k] == 0) && (forall k :: 0 <= k < n ==> All(t)[k] >= 1)
  {
    hide UpToZero;
    var q, n := All(t), |UpToZero(All(t), 0)|;
    forall k | 0 <= k < n ensures q[k] >= 1 { assert UpToZero(q, 0)[k] == q[0 + k]; }
  }

  lemma MaxRunsNext(p: seq<bool>, x: bool)
    ensures var q := MaxRuns(p);
      MaxRuns(p + [x]) == if p != [] && p[|p| - 1] == x then q[|q| - 1 := q[|q| - 1] + 1] else q + [1]
  {
    var r := p + [x];
    if p == [] {
      assert r == [x];
    } else {
      assert r[..|r| - 1] == p && r[|r| - 2] == p[|p| - 1] && r[|r| - 1] == x;
    }
  }

  /** One more run of another colour. */
  lemma {:induction false} NextRun(a: seq<bool>, c: bool, m: nat)
    requires m >= 1 && (a != [] ==> a[|a| - 1] != c)
    ensures MaxRuns(a + Same(c, m)) == MaxRuns(a) + [m]
  {
    hide Same, MaxRuns;
    OneMorePixel(a, c, m);
    MaxRunsNext(a + Same(c, m - 1), c);
    if m > 1 {
      NextRun(a, c, m - 1);
      var q := MaxRuns(a) + [m - 1];
      assert q[|q| - 1 := m] == MaxRuns(a) + [m];
    }
  }

  /** Alternating runs are the maximal runs of their pixels. */
  lemma {:induction false} MaxRunsOf(q: seq<int>, black: bool)
    requires q != [] && forall i :: 0 <= i < |q| ==> q[i] >= 1
    ensures var a := Alternating(q, black);
      a != [] && a[0] == black && a[|a| - 1] == Colour(black, |q| - 1) && MaxRuns(a) == q
  {
    hide MaxRuns, Alternating, Same;
    var n := |q| - 1;
    var a := Alternating(q[..n], black);
    NoRuns();
    assert q == q[..n] + [q[n]];
    AlternatingSnoc(q[..n], black, q[n]);
    if n > 0 {
      MaxRunsOf(q[..n], black);
    } else {
      Nothing(black);
    }
    NextRun(a, Colour(black, n), q[n]);
  }

  lemma NoRuns()
    ensures MaxRuns([]) == []
  {
  }

  /** The list of a byte holds the lengths of its maximal runs. */
  lemma ListIsMaxRuns(c: byte)
    ensures RunList(c) == MaxRuns(Row(c)) && 1 <= |RunList(c)| <= 8
  {
    hide Lists, Alternating, MaxRuns, NumberOf, Value, Total, EvenRuns, UpToZero, All, Weight, Shape, Row;
    var k, t, black := c / 8, Lists(c / 8)[c % 8], c >= 128;
    if k < 8 {
      Right0(k);
    } else if k < 16 {
      Right1(k);
    } else if k < 24 {
      Right2(k);
    } else {
      Right3(k);
    }
    assert Right(8 * k + c % 8, t);
    var q, r := All(t), RunList(c);
    ShapeZeros(t);
    assert Proper(q) by { assert q == r + q[|r|..]; }
    EightRuns(t, black);
    ValueOf(q, black, 8);
    EndWeights();
    ZerosAtEnd(q, black, |r|);
    MaxRunsOf(r, black);
    assert q[..8] == q;
    NumberTells(Alternating(q, black));
  }
}
