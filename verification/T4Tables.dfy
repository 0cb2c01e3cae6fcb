/**
 The one-dimensional T.4 code tables (section 4.1 of ITU-T T.4) in the order the
 encoder indexes them: 64 terminating codes, 27 make-up codes of the colour, then 13
 make-up codes common to both colours.
 */
module T4Tables {
  import opened Bits

  datatype Colour = White | Black

  /** A code word: its value and its length in bits. */
  datatype T4Code = T4Code(code: nat, bits: nat)

  const NCODES: nat := 64 + 27 + 13

  function Other(c: Colour): Colour {
    if c.White? then Black else White
  }

  /** The run length that table entry i stands for. */
  function RunLength(i: nat): nat {
    if i < 64 then i else 64 * (i - 63)
  }

  function Row(i: int, t0: T4Code, t1: T4Code, t2: T4Code, t3: T4Code,
               t4: T4Code, t5: T4Code, t6: T4Code, t7: T4Code): T4Code
  {
    if i < 4 then
      if i == 0 then t0 else if i == 1 then t1 else if i == 2 then t2 else t3
    else
      if i == 4 then t4 else if i == 5 then t5 else if i == 6 then t6 else t7
  }

  function WhiteCode(i: nat): T4Code
    requires i < NCODES
  {
    if i < 8 then Row(i - 0, T4Code(53, 8), T4Code(7, 6), T4Code(7, 4), T4Code(8, 4),
        T4Code(11, 4), T4Code(12, 4), T4Code(14, 4), T4Code(15, 4))
    else if i < 16 then Row(i - 8, T4Code(19, 5), T4Code(20, 5), T4Code(7, 5), T4Code(8, 5),
        T4Code(8, 6), T4Code(3, 6), T4Code(52, 6), T4Code(53, 6))
    else if i < 24 then Row(i - 16, T4Code(42, 6), T4Code(43, 6), T4Code(39, 7), T4Code(12, 7),
        T4Code(8, 7), T4Code(23, 7), T4Code(3, 7), T4Code(4, 7))
    else if i < 32 then Row(i - 24, T4Code(40, 7), T4Code(43, 7), T4Code(19, 7), T4Code(36, 7),
        T4Code(24, 7), T4Code(2, 8), T4Code(3, 8), T4Code(26, 8))
    else if i < 40 then Row(i - 32, T4Code(27, 8), T4Code(18, 8), T4Code(19, 8), T4Code(20, 8),
        T4Code(21, 8), T4Code(22, 8), T4Code(23, 8), T4Code(40, 8))
    else if i < 48 then Row(i - 40, T4Code(41, 8), T4Code(42, 8), T4Code(43, 8), T4Code(44, 8),
        T4Code(45, 8), T4Code(4, 8), T4Code(5, 8), T4Code(10, 8))
    else if i < 56 then Row(i - 48, T4Code(11, 8), T4Code(82, 8), T4Code(83, 8), T4Code(84, 8),
        T4Code(85, 8), T4Code(36, 8), T4Code(37, 8), T4Code(88, 8))
    else if i < 64 then Row(i - 56, T4Code(89, 8), T4Code(90, 8), T4Code(91, 8), T4Code(74, 8),
        T4Code(75, 8), T4Code(50, 8), T4Code(51, 8), T4Code(52, 8))
    else if i < 72 then Row(i - 64, T4Code(27, 5), T4Code(18, 5), T4Code(23, 6), T4Code(55, 7),
        T4Code(54, 8), T4Code(55, 8), T4Code(100, 8), T4Code(101, 8))
    else if i < 80 then Row(i - 72, T4Code(104, 8), T4Code(103, 8), T4Code(204, 9), T4Code(205, 9),
        T4Code(210, 9), T4Code(211, 9), T4Code(212, 9), T4Code(213, 9))
    else if i < 88 then Row(i - 80, T4Code(214, 9), T4Code(215, 9), T4Code(216, 9), T4Code(217, 9),
        T4Code(218, 9), T4Code(219, 9), T4Code(152, 9), T4Code(153, 9))
    else if i < 96 then Row(i - 88, T4Code(154, 9), T4Code(24, 6), T4Code(155, 9), T4Code(8, 11),
        T4Code(12, 11), T4Code(13, 11), T4Code(18, 12), T4Code(19, 12))
    else Row(i - 96, T4Code(20, 12), T4Code(21, 12), T4Code(22, 12), T4Code(23, 12),
        T4Code(28, 12), T4Code(29, 12), T4Code(30, 12), T4Code(31, 12))
  }

  function BlackCode(i: nat): T4Code
    requires i < NCODES
  {
    if i < 8 then Row(i - 0, T4Code(55, 10), T4Code(2, 3), T4Code(3, 2), T4Code(2, 2),
        T4Code(3, 3), T4Code(3, 4), T4Code(2, 4), T4Code(3, 5))
    else if i < 16 then Row(i - 8, T4Code(5, 6), T4Code(4, 6), T4Code(4, 7), T4Code(5, 7),
        T4Code(7, 7), T4Code(4, 8), T4Code(7, 8), T4Code(24, 9))
    else if i < 24 then Row(i - 16, T4Code(23, 10), T4Code(24, 10), T4Code(8, 10), T4Code(103, 11),
        T4Code(104, 11), T4Code(108, 11), T4Code(55, 11), T4Code(40, 11))
    else if i < 32 then Row(i - 24, T4Code(23, 11), T4Code(24, 11), T4Code(202, 12), T4Code(203, 12),
        T4Code(204, 12), T4Code(205, 12), T4Code(104, 12), T4Code(105, 12))
    else if i < 40 then Row(i - 32, T4Code(106, 12), T4Code(107, 12), T4Code(210, 12), T4Code(211, 12),
        T4Code(212, 12), T4Code(213, 12), T4Code(214, 12), T4Code(215, 12))
    else if i < 48 then Row(i - 40, T4Code(108, 12), T4Code(109, 12), T4Code(218, 12), T4Code(219, 12),
        T4Code(84, 12), T4Code(85, 12), T4Code(86, 12), T4Code(87, 12))
    else if i < 56 then Row(i - 48, T4Code(100, 12), T4Code(101, 12), T4Code(82, 12), T4Code(83, 12),
        T4Code(36, 12), T4Code(55, 12), T4Code(56, 12), T4Code(39, 12))
    else if i < 64 then Row(i - 56, T4Code(40, 12), T4Code(88, 12), T4Code(89, 12), T4Code(43, 12),
        T4Code(44, 12), T4Code(90, 12), T4Code(102, 12), T4Code(103, 12))
    else if i < 72 then Row(i - 64, T4Code(15, 10), T4Code(200, 12), T4Code(201, 12), T4Code(91, 12),
        T4Code(51, 12), T4Code(52, 12), T4Code(53, 12), T4Code(108, 13))
    else if i < 80 then Row(i - 72, T4Code(109, 13), T4Code(74, 13), T4Code(75, 13), T4Code(76, 13),
        T4Code(77, 13), T4Code(114, 13), T4Code(115, 13), T4Code(116, 13))
    else if i < 88 then Row(i - 80, T4Code(117, 13), T4Code(118, 13), T4Code(119, 13), T4Code(82, 13),
        T4Code(83, 13), T4Code(84, 13), T4Code(85, 13), T4Code(90, 13))
    else if i < 96 then Row(i - 88, T4Code(91, 13), T4Code(100, 13), T4Code(101, 13), T4Code(8, 11),
        T4Code(12, 11), T4Code(13, 11), T4Code(18, 12), T4Code(19, 12))
    else Row(i - 96, T4Code(20, 12), T4Code(21, 12), T4Code(22, 12), T4Code(23, 12),
        T4Code(28, 12), T4Code(29, 12), T4Code(30, 12), T4Code(31, 12))
  }

  function CodeOf(c: Colour, i: nat): T4Code
    requires i < NCODES
  {
    if c.White? then WhiteCode(i) else BlackCode(i)
  }

  /** x shifted left by n <= 11 places. */
  function Span(x: nat, n: nat): nat {
    if n == 0 then x else if n == 1 then 2 * x else if n == 2 then 4 * x
    else if n == 3 then 8 * x else if n == 4 then 16 * x else if n == 5 then 32 * x
    else if n == 6 then 64 * x else if n == 7 then 128 * x else if n == 8 then 256 * x
    else if n == 9 then 512 * x else if n == 10 then 1024 * x else 2048 * x
  }

  lemma SpanIsShift(x: nat, n: nat)
    requires n <= 11
    ensures Span(x, n) == x * Pow2(n)
  {
    Pow2Values();
  }

  /** The 13-bit windows that begin with a code form an interval [Lo, Hi). */
  function Lo(t: T4Code): nat {
    if t.bits <= 13 then Span(t.code, 13 - t.bits) else 0
  }

  function Hi(t: T4Code): nat {
    if t.bits <= 13 then Span(t.code + 1, 13 - t.bits) else 0
  }

  /** The 13-bit window v begins with code i of colour c. */
  predicate Covers(c: Colour, i: nat, v: nat)
    requires i < NCODES
  {
    Lo(CodeOf(c, i)) <= v < Hi(CodeOf(c, i))
  }

  /** Lengths, and where the interval of a code lies. */
  predicate Shape(t: T4Code) {
    && 2 <= t.bits <= 13 && 1 <= t.code && t.code % 16 != 0
    && 32 <= Lo(t) < Hi(t) <= 8192
    && (t.bits <= 9 ==> Lo(t) % 16 == 0 && Hi(t) % 16 == 0)
  }

  /** Codes of more than 9 bits begin with four zeros and stay in one block of 16 windows. */
  predicate LongShape(t: T4Code) {
    9 < t.bits <= 13 ==> Hi(t) <= 512 && (Hi(t) - 1) / 16 == Lo(t) / 16 == t.code / Span(1, t.bits - 9)
  }

  lemma WhiteShape(i: nat)
    requires i < NCODES
    ensures Shape(WhiteCode(i))
  {
  }

  lemma BlackShape(i: nat)
    requires i < NCODES
    ensures Shape(BlackCode(i))
  {
  }

  lemma WhiteLongShape(i: nat)
    requires i < NCODES
    ensures LongShape(WhiteCode(i))
  {
  }

  lemma BlackLongShape(i: nat)
    requires i < NCODES
    ensures LongShape(BlackCode(i))
  {
  }

  lemma CodeShape(c: Colour, i: nat)
    requires i < NCODES
    ensures Shape(CodeOf(c, i)) && LongShape(CodeOf(c, i))
  {
    if c.White? {
      WhiteShape(i);
      WhiteLongShape(i);
    } else {
      BlackShape(i);
      BlackLongShape(i);
    }
  }

  // The tables are prefix-free: a window determines the code it begins with. The two
  // functions below are that decision, as binary trees over the ends of the intervals.

  function WhiteOwner(v: nat): nat {
    if v < 2048 then (if v < 672 then (if v < 64 then (if v < 46 then (if v < 40 then (if v < 36 then (91)
              else (if v < 38 then 94 else 95))
            else (if v < 42 then (96)
              else (if v < 44 then 97 else 98)))
          else (if v < 56 then (if v < 48 then (99)
              else (if v < 52 then 92 else 93))
            else (if v < 60 then (if v < 58 then 100 else 101)
              else (if v < 62 then 102 else 103))))
        else (if v < 320 then (if v < 160 then (if v < 96 then (29)
              else (if v < 128 then 30 else 45))
            else (if v < 192 then (46)
              else (if v < 256 then 22 else 23)))
          else (if v < 512 then (if v < 352 then (47)
              else (if v < 384 then 48 else 13))
            else (if v < 608 then (if v < 576 then 20 else 33)
              else (if v < 640 then 34 else 35)))))
      else (if v < 1344 then (if v < 896 then (if v < 768 then (if v < 704 then (36)
              else (if v < 736 then 37 else 38))
            else (if v < 832 then (19)
              else (if v < 864 then 31 else 32)))
          else (if v < 1184 then (if v < 1024 then (1)
              else (if v < 1152 then 12 else 53))
            else (if v < 1280 then (if v < 1216 then 54 else 26)
              else (if v < 1312 then 39 else 40))))
        else (if v < 1600 then (if v < 1440 then (if v < 1376 then (41)
              else (if v < 1408 then 42 else 43))
            else (if v < 1472 then (44)
              else (if v < 1536 then 21 else 28)))
          else (if v < 1696 then (if v < 1632 then (61)
              else (if v < 1664 then 62 else 63))
            else (if v < 1760 then (if v < 1728 then 0 else 68)
              else (if v < 1792 then 69 else 10))))))
    else (if v < 3328 then (if v < 2720 then (if v < 2464 then (if v < 2400 then (if v < 2304 then (11)
              else (if v < 2368 then 27 else 59))
            else (if v < 2432 then (60)
              else (if v < 2448 then 86 else 87)))
          else (if v < 2560 then (if v < 2480 then (88)
              else (if v < 2496 then 90 else 18))
            else (if v < 2656 then (if v < 2624 then 24 else 49)
              else (if v < 2688 then 50 else 51))))
        else (if v < 2944 then (if v < 2848 then (if v < 2752 then (52)
              else (if v < 2816 then 25 else 55))
            else (if v < 2880 then (56)
              else (if v < 2912 then 57 else 58)))
          else (if v < 3232 then (if v < 3072 then (66)
              else (if v < 3200 then 89 else 70))
            else (if v < 3280 then (if v < 3264 then 71 else 74)
              else (if v < 3296 then 75 else 73)))))
      else (if v < 4096 then (if v < 3440 then (if v < 3392 then (if v < 3360 then (72)
              else (if v < 3376 then 76 else 77))
            else (if v < 3408 then (78)
              else (if v < 3424 then 79 else 80)))
          else (if v < 3488 then (if v < 3456 then (81)
              else (if v < 3472 then 82 else 83))
            else (if v < 3520 then (if v < 3504 then 84 else 85)
              else (if v < 3584 then 67 else 2))))
        else (if v < 5632 then (if v < 5120 then (if v < 4608 then (3)
              else (if v < 4864 then 65 else 8))
            else (if v < 5376 then (9)
              else (if v < 5504 then 16 else 17)))
          else (if v < 6784 then (if v < 6144 then (4)
              else (if v < 6656 then 5 else 14))
            else (if v < 7168 then (if v < 6912 then 15 else 64)
              else (if v < 7680 then 6 else 7))))))
  }

  function BlackOwner(v: nat): nat {
    if v < 170 then (if v < 88 then (if v < 64 then (if v < 46 then (if v < 40 then (if v < 36 then (91)
              else (if v < 38 then 94 else 95))
            else (if v < 42 then (96)
              else (if v < 44 then 97 else 98)))
          else (if v < 56 then (if v < 48 then (99)
              else (if v < 52 then 92 else 93))
            else (if v < 60 then (if v < 58 then 100 else 101)
              else (if v < 62 then 102 else 103))))
        else (if v < 78 then (if v < 75 then (if v < 72 then (18)
              else (if v < 74 then 52 else 73))
            else (if v < 76 then (74)
              else (if v < 77 then 75 else 76)))
          else (if v < 83 then (if v < 80 then (55)
              else (if v < 82 then 56 else 83))
            else (if v < 85 then (if v < 84 then 84 else 85)
              else (if v < 86 then 86 else 59)))))
      else (if v < 112 then (if v < 101 then (if v < 92 then (if v < 90 then (60)
              else (if v < 91 then 87 else 88))
            else (if v < 96 then (24)
              else (if v < 100 then 25 else 89)))
          else (if v < 106 then (if v < 102 then (90)
              else (if v < 104 then 68 else 69))
            else (if v < 109 then (if v < 108 then 70 else 71)
              else (if v < 110 then 72 else 53))))
        else (if v < 119 then (if v < 116 then (if v < 114 then (54)
              else (if v < 115 then 77 else 78))
            else (if v < 117 then (79)
              else (if v < 118 then 80 else 81)))
          else (if v < 160 then (if v < 120 then (82)
              else (if v < 128 then 64 else 13))
            else (if v < 166 then (if v < 164 then 23 else 50)
              else (if v < 168 then 51 else 44))))))
    else (if v < 404 then (if v < 208 then (if v < 182 then (if v < 176 then (if v < 172 then (45)
              else (if v < 174 then 46 else 47))
            else (if v < 178 then (57)
              else (if v < 180 then 58 else 61)))
          else (if v < 200 then (if v < 184 then (67)
              else (if v < 192 then 16 else 17))
            else (if v < 204 then (if v < 202 then 48 else 49)
              else (if v < 206 then 62 else 63))))
        else (if v < 220 then (if v < 214 then (if v < 210 then (30)
              else (if v < 212 then 31 else 32))
            else (if v < 216 then (33)
              else (if v < 218 then 40 else 41)))
          else (if v < 320 then (if v < 224 then (22)
              else (if v < 256 then 14 else 10))
            else (if v < 400 then (if v < 384 then 11 else 15)
              else (if v < 402 then 65 else 66)))))
      else (if v < 436 then (if v < 420 then (if v < 410 then (if v < 406 then (26)
              else (if v < 408 then 27 else 28))
            else (if v < 412 then (29)
              else (if v < 416 then 19 else 20)))
          else (if v < 426 then (if v < 422 then (34)
              else (if v < 424 then 35 else 36))
            else (if v < 430 then (if v < 428 then 37 else 38)
              else (if v < 432 then 39 else 21))))
        else (if v < 768 then (if v < 448 then (if v < 438 then (42)
              else (if v < 440 then 43 else 0))
            else (if v < 512 then (12)
              else (if v < 640 then 9 else 8)))
          else (if v < 2048 then (if v < 1024 then (7)
              else (if v < 1536 then 6 else 5))
            else (if v < 4096 then (if v < 3072 then 1 else 4)
              else (if v < 6144 then 3 else 2))))))
  }

  lemma WhiteOwnerShort(i: nat, v: nat)
    requires i < 32
    requires Lo(WhiteCode(i)) <= v < Hi(WhiteCode(i))
    ensures WhiteOwner(v) == i
  {
  }

  lemma WhiteOwnerMedium(i: nat, v: nat)
    requires 32 <= i < 64
    requires Lo(WhiteCode(i)) <= v < Hi(WhiteCode(i))
    ensures WhiteOwner(v) == i
  {
  }

  lemma WhiteOwnerMakeUp(i: nat, v: nat)
    requires 64 <= i < NCODES
    requires Lo(WhiteCode(i)) <= v < Hi(WhiteCode(i))
    ensures WhiteOwner(v) == i
  {
  }

  lemma BlackOwnerShort(i: nat, v: nat)
    requires i < 32
    requires Lo(BlackCode(i)) <= v < Hi(BlackCode(i))
    ensures BlackOwner(v) == i
  {
  }

  lemma BlackOwnerMedium(i: nat, v: nat)
    requires 32 <= i < 64
    requires Lo(BlackCode(i)) <= v < Hi(BlackCode(i))
    ensures BlackOwner(v) == i
  {
  }

  lemma BlackOwnerMakeUp(i: nat, v: nat)
    requires 64 <= i < NCODES
    requires Lo(BlackCode(i)) <= v < Hi(BlackCode(i))
    ensures BlackOwner(v) == i
  {
  }

  function Owner(c: Colour, v: nat): nat {
    if c.White? then WhiteOwner(v) else BlackOwner(v)
  }

  /** No window begins with two different codes of a colour. */
  lemma PrefixFree(c: Colour, i: nat, v: nat)
    requires i < NCODES && Covers(c, i, v)
    ensures Owner(c, v) == i
  {
    if c.White? {
      if i < 32 { WhiteOwnerShort(i, v); } else if i < 64 { WhiteOwnerMedium(i, v); } else { WhiteOwnerMakeUp(i, v); }
    } else {
      if i < 32 { BlackOwnerShort(i, v); } else if i < 64 { BlackOwnerMedium(i, v); } else { BlackOwnerMakeUp(i, v); }
    }
  }
}
