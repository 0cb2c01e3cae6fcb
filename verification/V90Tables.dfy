/** The linear levels of the 128 u-law and A-law codes, from the weakest to the strongest. */
module V90Tables {
  function Octet(i: nat, a: nat, b: nat, c: nat, d: nat, e: nat, f: nat, g: nat, h: nat): (v: nat) {
    if i == 0 then a else if i == 1 then b else if i == 2 then c else if i == 3 then d
    else if i == 4 then e else if i == 5 then f else if i == 6 then g else h
  }

  function Ulaw(u: nat): nat {
    if u < 8 then Octet(u, 0, 8, 16, 24, 32, 40, 48, 56)
    else if u < 16 then Octet(u - 8, 64, 72, 80, 88, 96, 104, 112, 120)
    else if u < 24 then Octet(u - 16, 132, 148, 164, 180, 196, 212, 228, 244)
    else if u < 32 then Octet(u - 24, 260, 276, 292, 308, 324, 340, 356, 372)
    else if u < 40 then Octet(u - 32, 396, 428, 460, 492, 524, 556, 588, 620)
    else if u < 48 then Octet(u - 40, 652, 684, 716, 748, 780, 812, 844, 876)
    else if u < 56 then Octet(u - 48, 924, 988, 1052, 1116, 1180, 1244, 1308, 1372)
    else if u < 64 then Octet(u - 56, 1436, 1500, 1564, 1628, 1692, 1756, 1820, 1884)
    else if u < 72 then Octet(u - 64, 1980, 2108, 2236, 2364, 2492, 2620, 2748, 2876)
    else if u < 80 then Octet(u - 72, 3004, 3132, 3260, 3388, 3516, 3644, 3772, 3900)
    else if u < 88 then Octet(u - 80, 4092, 4348, 4604, 4860, 5116, 5372, 5628, 5884)
    else if u < 96 then Octet(u - 88, 6140, 6396, 6652, 6908, 7164, 7420, 7676, 7932)
    else if u < 104 then Octet(u - 96, 8316, 8828, 9340, 9852, 10364, 10876, 11388, 11900)
    else if u < 112 then Octet(u - 104, 12412, 12924, 13436, 13948, 14460, 14972, 15484, 15996)
    else if u < 120 then Octet(u - 112, 16764, 17788, 18812, 19836, 20860, 21884, 22908, 23932)
    else Octet(u - 120, 24956, 25980, 27004, 28028, 29052, 30076, 31100, 32124)
  }

  function Alaw(u: nat): nat {
    if u < 8 then Octet(u, 8, 24, 40, 56, 72, 88, 104, 120)
    else if u < 16 then Octet(u - 8, 136, 152, 168, 184, 200, 216, 232, 248)
    else if u < 24 then Octet(u - 16, 264, 280, 296, 312, 328, 344, 360, 376)
    else if u < 32 then Octet(u - 24, 392, 408, 424, 440, 456, 472, 488, 504)
    else if u < 40 then Octet(u - 32, 528, 560, 592, 624, 656, 688, 720, 752)
    else if u < 48 then Octet(u - 40, 784, 816, 848, 880, 912, 944, 976, 1008)
    else if u < 56 then Octet(u - 48, 1056, 1120, 1184, 1248, 1312, 1376, 1440, 1504)
    else if u < 64 then Octet(u - 56, 1568, 1632, 1696, 1760, 1824, 1888, 1952, 2016)
    else if u < 72 then Octet(u - 64, 2112, 2240, 2368, 2496, 2624, 2752, 2880, 3008)
    else if u < 80 then Octet(u - 72, 3136, 3264, 3392, 3520, 3648, 3776, 3904, 4032)
    else if u < 88 then Octet(u - 80, 4224, 4480, 4736, 4992, 5248, 5504, 5760, 6016)
    else if u < 96 then Octet(u - 88, 6272, 6528, 6784, 7040, 7296, 7552, 7808, 8064)
    else if u < 104 then Octet(u - 96, 8448, 8960, 9472, 9984, 10496, 11008, 11520, 12032)
    else if u < 112 then Octet(u - 104, 12544, 13056, 13568, 14080, 14592, 15104, 15616, 16128)
    else if u < 120 then Octet(u - 112, 16896, 17920, 18944, 19968, 20992, 22016, 23040, 24064)
    else Octet(u - 120, 25088, 26112, 27136, 28160, 29184, 30208, 31232, 32256)
  }

  /** The levels of one law, by code. */
  function Levels(alaw: bool): (s: seq<nat>)
    ensures |s| == 128 && forall u :: 0 <= u < 128 ==> s[u] == if alaw then Alaw(u) else Ulaw(u)
  {
    seq(128, u requires u >= 0 => if alaw then Alaw(u) else Ulaw(u))
  }

  lemma UlawStep(u: nat)
    requires u < 127
    ensures Ulaw(u) < Ulaw(u + 1) <= 32124
  {
  }

  lemma AlawStep(u: nat)
    requires u < 127
    ensures Alaw(u) < Alaw(u + 1) <= 32256
  {
  }

  /** Stronger codes have strictly higher levels; only the u-law's weakest code has level 0. */
  lemma {:induction false} LevelsAscend(alaw: bool, a: nat, b: nat)
    requires a < b < 128
    ensures Levels(alaw)[a] < Levels(alaw)[b] <= 32256
    ensures Levels(alaw)[0] == if alaw then 8 else 0
    decreases b
  {
    hide Ulaw, Alaw;
    if alaw { AlawStep(b - 1); } else { UlawStep(b - 1); }
    if a < b - 1 { LevelsAscend(alaw, a, b - 1); }
    Weakest();
  }

  lemma Weakest()
    ensures Ulaw(0) == 0 && Alaw(0) == 8
  {
  }
}
