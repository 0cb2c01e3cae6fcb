/** The CP frame: modem parameters sent by the decoder's side and parsed by the encoder's. */
module V90CP {
  import opened Bits
  import opened V90Tables
  import opened V90Radix
  import opened V90Slicer
  import opened V90Stream
  import opened V90Trellis
  import opened V90Crc

  // ----- constellations -----

  /** Codes in use among 0 to i - 1, from the strongest down. */
  function CodesBelow(used: seq<bit>, i: nat): (c: seq<nat>)
    requires i <= |used|
    ensures |c| <= i && forall k :: 0 <= k < |c| ==> c[k] < i && used[c[k]] != 0
    ensures forall a, b :: 0 <= a < b < |c| ==> c[b] < c[a]
  {
    if i == 0 then [] else if used[i - 1] != 0 then [i - 1] + CodesBelow(used, i - 1) else CodesBelow(used, i - 1)
  }

  /** Every code in use is listed. */
  lemma {:induction false} CodesComplete(used: seq<bit>, i: nat, u: nat)
    requires u < i <= |used| && used[u] != 0
    ensures u in CodesBelow(used, i)
  {
    if u < i - 1 { CodesComplete(used, i - 1, u); }
  }

  lemma CodesStep(used: seq<bit>, done: seq<nat>, i: nat)
    requires 1 <= i <= |used|
    ensures done + CodesBelow(used, i) == (if used[i - 1] != 0 then done + [i - 1] else done) + CodesBelow(used, i - 1)
  {
    if used[i - 1] != 0 {
      assert done + ([i - 1] + CodesBelow(used, i - 1)) == done + [i - 1] + CodesBelow(used, i - 1);
    }
  }

  /** The encoder's table of one position. */
  method ListCodes(used: seq<bit>) returns (codes: seq<nat>)
    requires |used| == CODES
    ensures codes == CodesBelow(used, CODES)
  {
    hide CodesBelow;
    codes := [];
    var i := CODES;
    assert [] + CodesBelow(used, CODES) == CodesBelow(used, CODES);
    while i > 0
      invariant 0 <= i <= CODES && CodesBelow(used, CODES) == codes + CodesBelow(used, i)
    {
      CodesStep(used, codes, i);
      i := i - 1;
      if used[i] != 0 { codes := codes + [i]; }
    }
    assert codes + CodesBelow(used, 0) == codes;
  }

  /** The first m entries are the levels of these codes, the others zero. */
  predicate LevelsOf(alaw: bool, tab: seq<nat>, codes: seq<nat>)
    requires |tab| == CODES && forall k :: 0 <= k < |codes| ==> codes[k] < CODES
  {
    forall k :: 0 <= k < CODES ==> tab[k] == if k < |codes| then Levels(alaw)[codes[k]] else 0
  }

  /** The decoder's table of one position: the levels of the codes in use, then zeros. */
  method ListLevels(alaw: bool, used: seq<bit>) returns (tab: seq<nat>, m: nat)
    requires |used| == CODES
    ensures m == |CodesBelow(used, CODES)| && |tab| == CODES && LevelsOf(alaw, tab, CodesBelow(used, CODES))
  {
    hide Levels, CodesBelow;
    ghost var codes: seq<nat> := [];
    tab, m := seq(CODES, _ => 0), 0;
    var i := CODES;
    assert [] + CodesBelow(used, CODES) == CodesBelow(used, CODES);
    while i > 0
      invariant 0 <= i <= CODES && CodesBelow(used, CODES) == codes + CodesBelow(used, i)
      invariant |tab| == CODES && m == |codes| <= CODES - i
      invariant forall k :: 0 <= k < m ==> codes[k] < CODES
      invariant LevelsOf(alaw, tab, codes)
    {
      CodesStep(used, codes, i);
      i := i - 1;
      if used[i] != 0 {
        tab := tab[m := Levels(alaw)[i]];
        codes := codes + [i];
        m := m + 1;
      }
    }
    assert codes + CodesBelow(used, 0) == codes;
  }

  // ----- the frame -----

  /** The n low-order bits of v, most significant first. */
  function Field(v: int, n: nat): (s: seq<bit>)
    ensures |s| == n
  {
    ToBits(v % Pow2(n), n)
  }

  function GetBits(buf: seq<bit>, o: nat, n: nat): nat
    requires o + n <= |buf|
  {
    Val(buf[o..o + n])
  }

  /** 8-bit value as a signed char. */
  function Signed8(v: nat): int {
    if v >= 128 then v - 256 else v
  }

  /** What one side tells the other: rates, law, look-ahead, filter and constellation. */
  datatype Setup = Setup(S: nat, K: nat, alaw: bool, ld: nat, c: Coefficients, used: seq<bit>)

  predicate SetupOk(s: Setup) {
    && 3 <= s.S <= 6 && s.ld <= 3 && |s.used| == CODES
    && -128 <= s.c.a1 < 128 && -128 <= s.c.a2 < 128 && -128 <= s.c.b1 < 128 && -128 <= s.c.b2 < 128
  }

  function Flag(b: bool): bit {
    if b then 1 else 0
  }

  /** 17 bits: start bit, type, rate, silence, redundancy, acknowledgement. */
  function RateWord(s: Setup, isCP: bit, ack: bit): (w: seq<bit>)
    ensures |w| == 17
  {
    [0, 0, isCP] + Field(s.K + s.S - (if isCP == 1 then 20 else 8), 5) + Zeros(6) + Field(6 - s.S, 2) + [ack]
  }

  function LawWord(s: Setup): (w: seq<bit>)
    ensures |w| == 17
  {
    [0, Flag(s.alaw)] + Repeat(1, 13) + Field(s.ld, 2)
  }

  function Repeat(b: bit, n: nat): (w: seq<bit>)
    ensures |w| == n && forall i :: 0 <= i < n ==> w[i] == b
  {
    seq(n, _ => b)
  }

  function PairWord(a: int, b: int): (w: seq<bit>)
    ensures |w| == 17
  {
    [0] + Field(a, 8) + Field(b, 8)
  }

  /** Sync and parameters: eight groups of 17 bits. The modulation indices are all zero. */
  function Header(s: Setup, isCP: bit, ack: bit): (w: seq<bit>)
    ensures |w| == 136
  {
    Repeat(1, 17) + RateWord(s, isCP, ack) + LawWord(s) + Zeros(17)
    + PairWord(s.c.a1, s.c.a2) + PairWord(s.c.b1, s.c.b2)
    + Zeros(17) + Zeros(17)
  }

  /** The constellation: a start bit before every 16 codes. */
  function Constellation(used: seq<bit>, n: nat): (w: seq<bit>)
    requires n <= |used|
    ensures |w| == n + (n + 15) / 16
  {
    if n == 0 then [] else Constellation(used, n - 1) + (if (n - 1) % 16 == 0 then [0, used[n - 1]] else [used[n - 1]])
  }

  /** Where the bit of code j is. */
  function CodePlace(j: nat): nat {
    1 + 17 * (j / 16) + j % 16
  }

  lemma {:induction false} CodeBit(used: seq<bit>, n: nat, j: nat)
    requires j < n <= |used|
    ensures CodePlace(j) < |Constellation(used, n)| && Constellation(used, n)[CodePlace(j)] == used[j]
  {
    if j < n - 1 { CodeBit(used, n - 1, j); }
  }

  // ----- sending -----

  /** The part of a CP frame that the check covers, without the sync. */
  function Checked(s: Setup, isCP: bit, ack: bit): seq<bit>
    requires SetupOk(s)
  {
    Header(s, isCP, ack)[17..] + Constellation(s.used, CODES) + [0]
  }

  /** A whole CP frame. */
  function Frame(s: Setup, isCP: bit, ack: bit): (f: seq<bit>)
    requires SetupOk(s)
    ensures |f| == 292
  {
    Header(s, isCP, ack) + Constellation(s.used, CODES) + [0]
    + CrcBits(Crc(0xffff, Checked(s, isCP, ack)), 16) + Zeros(3)
  }

  /** Send a CP frame. */
  method SendCP(s: Setup, isCP: bit, ack: bit) returns (buf: seq<bit>)
    requires SetupOk(s)
    ensures buf == Frame(s, isCP, ack)
  {
    hide Header, Constellation, Crc, CrcBits;
    buf := Header(s, isCP, ack);
    var i := 0;
    ghost var head := buf;
    while i < CODES
      invariant 0 <= i <= CODES && buf == head + Constellation(s.used, i)
    {
      ConstellationStep(s.used, head, i);
      if i % 16 == 0 { buf := buf + [0]; }
      buf := buf + [s.used[i]];
      i := i + 1;
    }
    buf := buf + [0];
    assert buf[17..] == Checked(s, isCP, ack);
    buf := buf + CrcBits(Crc(0xffff, buf[17..]), 16);
    buf := buf + Zeros(3);
  }

  lemma ConstellationStep(used: seq<bit>, head: seq<bit>, i: nat)
    requires i < |used|
    ensures head + Constellation(used, 0) == head
    ensures head + Constellation(used, i + 1)
         == (if i % 16 == 0 then head + Constellation(used, i) + [0] else head + Constellation(used, i)) + [used[i]]
  {
  }

  /** A frame as sent passes the receiver's check. */
  lemma SentPassesCheck(s: Setup, isCP: bit, ack: bit)
    requires SetupOk(s)
    ensures Crc(0xffff, Frame(s, isCP, ack)[17..289]) == 0
  {
    hide Header, Constellation, Crc, CrcBits;
    var body := Checked(s, isCP, ack);
    CheckedIsZero(0xffff, body);
    assert Frame(s, isCP, ack)[17..289] == body + CrcBits(Crc(0xffff, body), 16);
  }

  // ----- parsing -----

  function IndexPlace(i: nat): nat {
    if i < 4 then 103 + 4 * i else 120 + 4 * (i - 4)
  }

  /** The constellation index of position i. */
  function Index(buf: seq<bit>, i: nat): (x: nat)
    requires i < 6 && |buf| >= 128
    ensures x < 16
  {
    assert Pow2(4) == 16 by { Pow2Values(); }
    GetBits(buf, IndexPlace(i), 4)
  }

  /** The bit of code j of constellation k. */
  function UsedAt(buf: seq<bit>, k: nat, j: nat): bit
    requires j < CODES && 136 * (k + 1) + 136 <= |buf|
  {
    var n := k * CODES + j;
    buf[137 + 17 * (n / 16) + n % 16]
  }

  function Used(buf: seq<bit>, k: nat): (u: seq<bit>)
    requires 136 * (k + 1) + 136 <= |buf|
    ensures |u| == CODES && forall j :: 0 <= j < CODES ==> u[j] == UsedAt(buf, k, j)
  {
    seq(CODES, j requires 0 <= j < CODES => UsedAt(buf, k, j))
  }

  /** Every constellation referred to is in the buffer, and there is room for it. */
  predicate Parsable(buf: seq<bit>) {
    |buf| >= 272 && forall i :: 0 <= i < 6 ==> 136 * (Index(buf, i) + 1) + 136 <= |buf| && Index(buf, i) + buf[128] <= 6
  }

  datatype Parsed = Parsed(p: Params, c: Coefficients)

  function Lengths(codes: seq<seq<nat>>): (m: seq<nat>)
    ensures |m| == |codes| && forall j :: 0 <= j < |m| ==> m[j] == |codes[j]|
  {
    seq(|codes|, j requires 0 <= j < |codes| => |codes[j]|)
  }

  /** Parse a CP frame. */
  method ParseCP(buf: seq<bit>) returns (r: Parsed)
    requires Parsable(buf)
    ensures r.p.S == 6 - GetBits(buf, 31, 2) && r.p.alaw == (GetBits(buf, 35, 1) == 1) && r.p.ld == GetBits(buf, 49, 2)
    ensures r.p.S + r.p.K == GetBits(buf, 20, 5) + (if buf[19] == 1 then 20 else 8)
    ensures r.c == Coefficients(Signed8(GetBits(buf, 69, 8)), Signed8(GetBits(buf, 77, 8)),
                                Signed8(GetBits(buf, 86, 8)), Signed8(GetBits(buf, 94, 8)))
    ensures |r.p.codes| == 6 && r.p.M == Lengths(r.p.codes)
    ensures forall j :: 0 <= j < 6 ==> r.p.codes[j] == CodesBelow(Used(buf, Index(buf, j)), CODES)
  {
    hide Val, CodesBelow, Used;
    assert Pow2(2) == 4 by { Pow2Values(); }
    var S := 6 - GetBits(buf, 31, 2);
    var drn := GetBits(buf, 20, 5) + (if buf[19] == 1 then 20 else 8);
    var codes: seq<seq<nat>> := [];
    var j := 0;
    while j < 6
      invariant 0 <= j <= 6 && |codes| == j
      invariant forall k :: 0 <= k < j ==> codes[k] == CodesBelow(Used(buf, Index(buf, k)), CODES)
    {
      var list := ListCodes(Used(buf, Index(buf, j)));
      codes := codes + [list];
      j := j + 1;
    }
    r := Parsed(Params(S, drn - S, GetBits(buf, 49, 2), GetBits(buf, 35, 1) == 1, Lengths(codes), codes),
                Coefficients(Signed8(GetBits(buf, 69, 8)), Signed8(GetBits(buf, 77, 8)),
                             Signed8(GetBits(buf, 86, 8)), Signed8(GetBits(buf, 94, 8))));
  }

  // ----- what was sent is what is parsed -----

  lemma FieldValue(buf: seq<bit>, o: nat, v: int, n: nat)
    requires o + n <= |buf| && buf[o..o + n] == Field(v, n)
    ensures GetBits(buf, o, n) == v % Pow2(n)
  {
    ValToBits(v % Pow2(n), n);
    SmallMod(v % Pow2(n), Pow2(n));
  }

  /** A piece of a buffer's group of bits. */
  lemma Within(buf: seq<bit>, o: nat, w: seq<bit>, i: nat, n: nat)
    requires o + |w| <= |buf| && buf[o..o + |w|] == w && i + n <= |w|
    ensures buf[o + i..o + i + n] == w[i..i + n]
  {
    var a, b := buf[o + i..o + i + n], w[i..i + n];
    forall k | 0 <= k < n ensures a[k] == b[k] {
      assert buf[o..o + |w|][i + k] == buf[o + i + k];
    }
  }

  lemma HeaderGroups(s: Setup, isCP: bit, ack: bit)
    ensures var h := Header(s, isCP, ack);
      && h[17..34] == RateWord(s, isCP, ack) && h[34..51] == LawWord(s)
      && h[68..85] == PairWord(s.c.a1, s.c.a2) && h[85..102] == PairWord(s.c.b1, s.c.b2)
      && h[102..136] == Zeros(17) + Zeros(17)
  {
    hide RateWord, LawWord, PairWord, Repeat, Zeros;
  }

  lemma FrameGroups(s: Setup, isCP: bit, ack: bit)
    requires SetupOk(s)
    ensures var f := Frame(s, isCP, ack);
      && f[17..34] == RateWord(s, isCP, ack) && f[34..51] == LawWord(s)
      && f[68..85] == PairWord(s.c.a1, s.c.a2) && f[85..102] == PairWord(s.c.b1, s.c.b2)
      && f[102..136] == Zeros(17) + Zeros(17)
      && f[136..272] == Constellation(s.used, CODES)
  {
    hide Header, RateWord, LawWord, PairWord, Crc, CrcBits, Constellation, Checked;
    HeaderGroups(s, isCP, ack);
    var f, h := Frame(s, isCP, ack), Header(s, isCP, ack);
    assert f[..136] == h;
    PrefixSlice(f, h, 17, 34);
    PrefixSlice(f, h, 34, 51);
    PrefixSlice(f, h, 68, 85);
    PrefixSlice(f, h, 85, 102);
    PrefixSlice(f, h, 102, 136);
  }

  lemma PrefixSlice(f: seq<bit>, h: seq<bit>, a: nat, b: nat)
    requires h <= f && a <= b <= |h|
    ensures f[a..b] == h[a..b]
  {
  }

  lemma RateFields(s: Setup, isCP: bit, ack: bit)
    ensures var w := RateWord(s, isCP, ack);
      w[2] == isCP && w[3..8] == Field(s.K + s.S - (if isCP == 1 then 20 else 8), 5) && w[14..16] == Field(6 - s.S, 2)
  {
    hide Field;
  }

  lemma LawFields(s: Setup)
    ensures LawWord(s)[1] == Flag(s.alaw) && LawWord(s)[15..17] == Field(s.ld, 2)
  {
    hide Field;
  }

  lemma PairFields(a: int, b: int)
    ensures PairWord(a, b)[1..9] == Field(a, 8) && PairWord(a, b)[9..17] == Field(b, 8)
  {
    hide Field;
  }

  lemma OneBitValue(buf: seq<bit>, o: nat)
    requires o < |buf|
    ensures GetBits(buf, o, 1) == buf[o]
  {
    assert buf[o..o + 1] == [] + [buf[o]];
    ValSnoc([], buf[o]);
  }

  /** Every field of a frame as sent. */
  lemma SentFields(s: Setup, isCP: bit, ack: bit)
    requires SetupOk(s)
    ensures var f := Frame(s, isCP, ack);
      && f[19] == isCP && GetBits(f, 20, 5) == (s.K + s.S - (if isCP == 1 then 20 else 8)) % 32
      && GetBits(f, 31, 2) == 6 - s.S && GetBits(f, 35, 1) == Flag(s.alaw) && GetBits(f, 49, 2) == s.ld
  {
    hide Frame, RateWord, LawWord, PairWord, Field, GetBits, Constellation;
    var f := Frame(s, isCP, ack);
    FrameGroups(s, isCP, ack);
    assert Pow2(5) == 32 && Pow2(2) == 4 by { Pow2Values(); }
    RateFields(s, isCP, ack);
    Within(f, 17, RateWord(s, isCP, ack), 3, 5);
    FieldValue(f, 20, s.K + s.S - (if isCP == 1 then 20 else 8), 5);
    Within(f, 17, RateWord(s, isCP, ack), 14, 2);
    FieldValue(f, 31, 6 - s.S, 2);
    Within(f, 17, RateWord(s, isCP, ack), 2, 1);
    assert f[19] == f[19..20][0];
    LawFields(s);
    Within(f, 34, LawWord(s), 1, 1);
    OneBitValue(f, 35);
    assert f[35] == f[35..36][0];
    Within(f, 34, LawWord(s), 15, 2);
    FieldValue(f, 49, s.ld, 2);
  }

  lemma SignedBack(a: int)
    requires -128 <= a < 128
    ensures Signed8(a % 256) == a
  {
  }

  lemma SentFilter(s: Setup, isCP: bit, ack: bit)
    requires SetupOk(s)
    ensures var f := Frame(s, isCP, ack);
      s.c == Coefficients(Signed8(GetBits(f, 69, 8)), Signed8(GetBits(f, 77, 8)),
                          Signed8(GetBits(f, 86, 8)), Signed8(GetBits(f, 94, 8)))
  {
    hide Frame, RateWord, LawWord, PairWord, Field, GetBits, Constellation, Signed8;
    var f := Frame(s, isCP, ack);
    FrameGroups(s, isCP, ack);
    assert Pow2(8) == 256 by { Pow2Values(); }
    PairFields(s.c.a1, s.c.a2);
    PairFields(s.c.b1, s.c.b2);
    Within(f, 68, PairWord(s.c.a1, s.c.a2), 1, 8);
    Within(f, 68, PairWord(s.c.a1, s.c.a2), 9, 8);
    Within(f, 85, PairWord(s.c.b1, s.c.b2), 1, 8);
    Within(f, 85, PairWord(s.c.b1, s.c.b2), 9, 8);
    FieldValue(f, 69, s.c.a1, 8);
    FieldValue(f, 77, s.c.a2, 8);
    FieldValue(f, 86, s.c.b1, 8);
    FieldValue(f, 94, s.c.b2, 8);
    SignedBack(s.c.a1);
    SignedBack(s.c.a2);
    SignedBack(s.c.b1);
    SignedBack(s.c.b2);
  }

  /** All positions use the one constellation sent. */
  lemma SentConstellation(s: Setup, isCP: bit, ack: bit)
    requires SetupOk(s)
    ensures var f := Frame(s, isCP, ack);
      Parsable(f) && Used(f, 0) == s.used && forall i :: 0 <= i < 6 ==> Index(f, i) == 0
  {
    hide Frame, RateWord, LawWord, PairWord, Constellation, GetBits, Val;
    var f := Frame(s, isCP, ack);
    FrameGroups(s, isCP, ack);
    forall i | 0 <= i < 6 ensures Index(f, i) == 0 {
      ZeroIndex(f, i);
    }
    assert f[128] == f[102..136][26];
    forall j | 0 <= j < CODES ensures UsedAt(f, 0, j) == s.used[j] {
      CodeBit(s.used, CODES, j);
      assert f[136..272][CodePlace(j)] == f[136 + CodePlace(j)];
    }
  }

  lemma ZeroIndex(f: seq<bit>, i: nat)
    requires |f| >= 136 && f[102..136] == Zeros(17) + Zeros(17) && i < 6
    ensures Index(f, i) == 0
  {
    var o := IndexPlace(i) - 102;
    Within(f, 102, Zeros(17) + Zeros(17), o, 4);
    assert (Zeros(17) + Zeros(17))[o..o + 4] == Zeros(4);
    ValZeros(4);
  }

  /** The rate is in the range a CP (isCP 1) or CPt (0) frame can name. */
  predicate RateFits(s: Setup, isCP: bit) {
    0 <= s.K + s.S - (if isCP == 1 then 20 else 8) < 32
  }

  /** The encoder's parameters for a setup: the same codes at all six positions. */
  function ParamsOf(s: Setup): Params
    requires SetupOk(s)
  {
    var codes := CodesBelow(s.used, CODES);
    Params(s.S, s.K, s.ld, s.alaw, seq(6, _ => |codes|), seq(6, _ => codes))
  }

  /** Send and parse: everything arrives, K exactly when the rate fits its five bits. */
  method Negotiate(s: Setup, isCP: bit, ack: bit) returns (r: Parsed)
    requires SetupOk(s)
    ensures r.c == s.c && r.p == ParamsOf(s).(K := r.p.K)
    ensures r.p == ParamsOf(s) <==> RateFits(s, isCP)
  {
    hide GetBits, CodesBelow, Used, Val;
    var buf := SendCP(s, isCP, ack);
    SentFields(s, isCP, ack);
    SentFilter(s, isCP, ack);
    SentConstellation(s, isCP, ack);
    r := ParseCP(buf);
    assert r.p.codes == seq(6, _ => CodesBelow(s.used, CODES));
    assert r.p.M == seq(6, _ => |CodesBelow(s.used, CODES)|);
  }
}
