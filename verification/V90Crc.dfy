/** The 16-bit check of a CP frame: what passes it, and the errors that cannot. */
module V90Crc {
  import opened Bits

  function Feed(b: bit): (e: bv16)
    ensures e <= 1
  {
    if b == 1 then 1 else 0
  }

  function Xor(a: bv16, b: bv16): bv16 {
    a ^ b
  }

  function LowOf(d: bv16): bv16 {
    d & 1
  }

  function Halved(d: bv16): bv16 {
    d >> 1
  }

  /** One bit into the register. */
  function Step(crc: bv16, e: bv16): bv16 {
    Xor(Halved(crc), Feedback(Xor(LowOf(crc), e)))
  }

  function Feedback(b: bv16): bv16 {
    (b << 15) | (b << 10) | (b << 3)
  }

  /** The register after these bits. */
  function Crc(crc: bv16, s: seq<bit>): bv16 {
    if s == [] then crc else Step(Crc(crc, s[..|s| - 1]), Feed(s[|s| - 1]))
  }

  /** The n low-order bits of a register, in the order they are sent. */
  function CrcBits(crc: bv16, n: nat): (w: seq<bit>)
    ensures |w| == n
  {
    if n == 0 then [] else [if crc & 1 == 1 then 1 else 0] + CrcBits(crc >> 1, n - 1)
  }

  lemma CrcSnoc(crc: bv16, s: seq<bit>, b: bit)
    ensures Crc(crc, s + [b]) == Step(Crc(crc, s), Feed(b))
  {
    assert (s + [b])[..|s|] == s;
  }

  lemma {:induction false} CrcConcat(crc: bv16, s: seq<bit>, t: seq<bit>)
    ensures Crc(crc, s + t) == Crc(Crc(crc, s), t)
  {
    hide Step, Feed;
    if t == [] {
      assert s + t == s;
    } else {
      var u, b := t[..|t| - 1], t[|t| - 1];
      CrcConcat(crc, s, u);
      assert s + t == (s + u) + [b];
      CrcSnoc(crc, s + u, b);
    }
  }

  lemma CrcCons(crc: bv16, b: bit, t: seq<bit>)
    ensures Crc(crc, [b] + t) == Crc(Step(crc, Feed(b)), t)
  {
    hide Step, Feed;
    CrcConcat(crc, [b], t);
    CrcSnoc(crc, [], b);
    assert [] + [b] == [b];
  }

  // ----- what passes -----

  /** A register's own low bit shifts it. */
  lemma OwnBit(crc: bv16)
    ensures Step(crc, Feed(if crc & 1 == 1 then 1 else 0)) == crc >> 1
  {
  }

  function ShiftedOut(crc: bv16, n: nat): bv16 {
    if n == 0 then crc else ShiftedOut(crc >> 1, n - 1)
  }

  lemma {:induction false} OwnBits(crc: bv16, n: nat)
    ensures Crc(crc, CrcBits(crc, n)) == ShiftedOut(crc, n)
  {
    hide Step, Feed;
    if n != 0 {
      OwnBit(crc);
      OwnBits(crc >> 1, n - 1);
      CrcCons(crc, if crc & 1 == 1 then 1 else 0, CrcBits(crc >> 1, n - 1));
    }
  }

  lemma Out4(c: bv16, n: nat)
    ensures ShiftedOut(c, n + 4) == ShiftedOut(c >> 4, n)
  {
    assert ShiftedOut(c, n + 4) == ShiftedOut(c >> 1, n + 3);
    assert ShiftedOut(c >> 1, n + 3) == ShiftedOut((c >> 1) >> 1, n + 2);
    assert ShiftedOut((c >> 1) >> 1, n + 2) == ShiftedOut(((c >> 1) >> 1) >> 1, n + 1);
    assert ShiftedOut(((c >> 1) >> 1) >> 1, n + 1) == ShiftedOut((((c >> 1) >> 1) >> 1) >> 1, n);
  }

  lemma AllOut(c: bv16)
    ensures ShiftedOut(c, 16) == 0
  {
    Out4(c, 12);
    Out4(c >> 4, 8);
    Out4((c >> 4) >> 4, 4);
    Out4(((c >> 4) >> 4) >> 4, 0);
  }

  /** Anything followed by its check bits leaves a zero register. */
  lemma CheckedIsZero(crc: bv16, s: seq<bit>)
    ensures Crc(crc, s + CrcBits(Crc(crc, s), 16)) == 0
  {
    hide Step, Feed, ShiftedOut;
    var c := Crc(crc, s);
    CrcConcat(crc, s, CrcBits(c, 16));
    OwnBits(c, 16);
    AllOut(c);
  }

  // ----- errors found -----

  predicate TopClear(d: bv16) {
    d & 0x8000 == 0
  }

  /** The register is linear: differences move by the same step. */
  lemma StepLinear(c: bv16, c': bv16, e: bv16, e': bv16)
    requires e <= 1 && e' <= 1
    ensures Xor(Step(c, e), Step(c', e')) == Step(Xor(c, c'), Xor(e, e'))
  {
    hide Feedback, Xor, Halved, LowOf;
    Linear(c, c');
    Swap(LowOf(c), e, LowOf(c'), e');
    OneLow(c, e);
    OneLow(c', e');
    FeedbackLinear(Xor(LowOf(c), e), Xor(LowOf(c'), e'));
    Swap(Halved(c), Feedback(Xor(LowOf(c), e)), Halved(c'), Feedback(Xor(LowOf(c'), e')));
  }

  lemma Linear(c: bv16, c': bv16)
    ensures LowOf(Xor(c, c')) == Xor(LowOf(c), LowOf(c')) && Halved(Xor(c, c')) == Xor(Halved(c), Halved(c'))
  {
  }

  lemma OneLow(c: bv16, e: bv16)
    requires e <= 1
    ensures Xor(LowOf(c), e) <= 1
  {
  }

  lemma FeedbackLinear(b: bv16, b': bv16)
    requires b <= 1 && b' <= 1
    ensures Feedback(Xor(b, b')) == Xor(Feedback(b), Feedback(b'))
  {
    assert b == 0 || b == 1;
    assert b' == 0 || b' == 1;
  }

  lemma Assoc(a: bv16, b: bv16, c: bv16)
    ensures Xor(Xor(a, b), c) == Xor(a, Xor(b, c))
  {
  }

  lemma Comm(a: bv16, b: bv16)
    ensures Xor(a, b) == Xor(b, a)
  {
  }

  lemma Swap(a: bv16, f: bv16, a': bv16, f': bv16)
    ensures Xor(Xor(a, f), Xor(a', f')) == Xor(Xor(a, a'), Xor(f, f'))
  {
    hide Xor;
    Assoc(a, f, Xor(a', f'));
    Assoc(f, a', f');
    Comm(f, a');
    Assoc(a', f, f');
    Assoc(a, a', Xor(f, f'));
  }

  /** The difference of the registers after two bit strings. */
  function Diff(s: seq<bit>, t: seq<bit>): bv16
    requires |s| == |t|
  {
    if s == [] then 0 else Step(Diff(s[..|s| - 1], t[..|t| - 1]), Xor(Feed(s[|s| - 1]), Feed(t[|t| - 1])))
  }

  lemma {:induction false} CrcDifference(crc: bv16, s: seq<bit>, t: seq<bit>)
    requires |s| == |t|
    ensures Xor(Crc(crc, s), Crc(crc, t)) == Diff(s, t)
  {
    hide Step, Feed, Xor;
    if s != [] {
      var n := |s| - 1;
      CrcDifference(crc, s[..n], t[..n]);
      StepLinear(Crc(crc, s[..n]), Crc(crc, t[..n]), Feed(s[n]), Feed(t[n]));
    } else {
      SelfDiff(crc);
    }
  }

  lemma SelfDiff(c: bv16)
    ensures Xor(c, c) == 0
  {
  }

  /** d has no bits from place j on. */
  predicate Small(d: bv16, j: nat) {
    if j == 0 then d == 0 else Small(Halved(d), j - 1)
  }

  lemma Small5(d: bv16, j: nat)
    requires Small(d, j + 5)
    ensures Small(d >> 5, j)
  {
    assert Small(d >> 1, j + 4);
    assert Small((d >> 1) >> 1, j + 3);
    assert Small(((d >> 1) >> 1) >> 1, j + 2);
    assert Small((((d >> 1) >> 1) >> 1) >> 1, j + 1);
    assert Small(((((d >> 1) >> 1) >> 1) >> 1) >> 1, j);
  }

  lemma SmallTop(d: bv16)
    requires Small(d, 15)
    ensures TopClear(d)
  {
    Small5(d, 10);
    Small5(d >> 5, 5);
    Small5((d >> 5) >> 5, 0);
    assert ((d >> 5) >> 5) >> 5 == 0;
  }

  lemma {:induction false} SmallMore(d: bv16, j: nat, k: nat)
    requires Small(d, j) && j <= k
    ensures Small(d, k)
  {
    if k > 0 {
      if j == 0 {
        ZeroShifted();
        SmallMore(Halved(d), 0, k - 1);
      } else {
        SmallMore(Halved(d), j - 1, k - 1);
      }
    }
  }

  lemma NothingSmall()
    ensures Small(0, 0)
  {
  }

  lemma ZeroShifted()
    ensures Halved(0) == 0
  {
  }

  /** If the difference ends up without its top bit, the feedback was the same. */
  lemma StepBack(d: bv16, e: bv16)
    requires e <= 1 && TopClear(Step(d, e))
    ensures Step(d, e) == Halved(d) && e == LowOf(d)
  {
  }

  /** The bits at place i differ exactly as the registers' low bits before them do. */
  predicate SameFeedback(s: seq<bit>, t: seq<bit>, i: nat)
    requires i < |s| == |t|
  {
    Xor(Feed(s[i]), Feed(t[i])) == LowOf(Diff(s[..i], t[..i]))
  }

  lemma OneBit(a: bit, b: bit)
    ensures Xor(Feed(a), Feed(b)) <= 1 && (Xor(Feed(a), Feed(b)) == 0 ==> a == b)
  {
  }

  lemma OneStepBack(s: seq<bit>, t: seq<bit>, m: nat, j: nat)
    requires m < |s| == |t| && j < 16 && Small(Diff(s[..m + 1], t[..m + 1]), j)
    ensures Small(Diff(s[..m], t[..m]), j + 1) && SameFeedback(s, t, m)
  {
    hide Step, Feed, Xor, LowOf, Halved, TopClear;
    var d, e := Diff(s[..m], t[..m]), Xor(Feed(s[m]), Feed(t[m]));
    assert s[..m + 1][..m] == s[..m] && t[..m + 1][..m] == t[..m];
    SmallMore(Step(d, e), j, 15);
    SmallTop(Step(d, e));
    OneBit(s[m], t[m]);
    StepBack(d, e);
  }

  /** Going back from registers that agree, over the last j bits. */
  lemma {:induction false} TracedBack(s: seq<bit>, t: seq<bit>, j: nat)
    requires |s| == |t| && j <= 16 && j <= |s| && Diff(s, t) == 0
    ensures Small(Diff(s[..|s| - j], t[..|t| - j]), j)
    ensures forall i :: |s| - j <= i < |s| ==> SameFeedback(s, t, i)
    decreases j
  {
    hide Step, Feed, SameFeedback, Diff, Small, Xor;
    NothingSmall();
    assert s[..|s|] == s && t[..|t|] == t;
    if j > 0 {
      TracedBack(s, t, j - 1);
      OneStepBack(s, t, |s| - j, j - 1);
    }
  }

  lemma {:induction false} NoDifference(s: seq<bit>)
    ensures Diff(s, s) == 0
  {
    hide Step, Feed, Xor;
    if s != [] {
      NoDifference(s[..|s| - 1]);
      SelfDiff(Feed(s[|s| - 1]));
      NothingMoves();
    }
  }

  lemma NothingMoves()
    ensures Step(0, 0) == 0
  {
  }

  lemma LowOfZero()
    ensures LowOf(0) == 0
  {
  }

  /** Equal so far and the same feedback: the next bits are equal too. */
  lemma {:induction false} BurstEmpty(s: seq<bit>, t: seq<bit>, m: nat, n: nat)
    requires |s| == |t| && m <= n <= |s| && s[..m] == t[..m]
    requires forall i :: m <= i < n ==> SameFeedback(s, t, i)
    ensures s[..n] == t[..n]
  {
    hide Step, Feed, Diff, LowOf, Xor;
    if m < n {
      BurstEmpty(s, t, m, n - 1);
      NoDifference(s[..n - 1]);
      assert SameFeedback(s, t, n - 1);
      LowOfZero();
      OneBit(s[n - 1], t[n - 1]);
      assert s[..n] == s[..n - 1] + [s[n - 1]] && t[..n] == t[..n - 1] + [t[n - 1]];
    }
  }

  lemma StepOneToOne(c: bv16, c': bv16, e: bv16)
    requires e <= 1 && Step(c, e) == Step(c', e)
    ensures c == c'
  {
  }

  lemma {:induction false} CrcOneToOne(c: bv16, c': bv16, s: seq<bit>)
    requires Crc(c, s) == Crc(c', s)
    ensures c == c'
  {
    hide Step, Feed;
    if s != [] {
      StepOneToOne(Crc(c, s[..|s| - 1]), Crc(c', s[..|s| - 1]), Feed(s[|s| - 1]));
      CrcOneToOne(c, c', s[..|s| - 1]);
    }
  }

  /** Bit strings that agree outside 16 bits in a row and leave the same register are equal. */
  lemma SameRegister(crc: bv16, a: seq<bit>, b: seq<bit>, rest: seq<bit>, m: nat)
    requires |a| == |b| == m + 16 && a[..m] == b[..m]
    requires Crc(crc, a + rest) == Crc(crc, b + rest)
    ensures a == b
  {
    hide Crc, Step, Feed, Diff, SameFeedback, Xor;
    CrcConcat(crc, a, rest);
    CrcConcat(crc, b, rest);
    CrcOneToOne(Crc(crc, a), Crc(crc, b), rest);
    CrcDifference(crc, a, b);
    SelfDiff(Crc(crc, a));
    TracedBack(a, b, 16);
    BurstEmpty(a, b, m, m + 16);
    assert a == a[..m + 16] && b == b[..m + 16];
  }

  /** No error confined to 16 bits in a row passes the check. */
  lemma BurstFound(crc: bv16, s: seq<bit>, t: seq<bit>, m: nat)
    requires |s| == |t| && s != t && m + 16 <= |s|
    requires s[..m] == t[..m] && s[m + 16..] == t[m + 16..]
    ensures Crc(crc, s) == 0 ==> Crc(crc, t) != 0
  {
    hide Crc;
    var a, b, rest := s[..m + 16], t[..m + 16], s[m + 16..];
    assert s == a + rest && t == b + rest;
    assert a[..m] == s[..m] && b[..m] == t[..m];
    if Crc(crc, s) == Crc(crc, t) { SameRegister(crc, a, b, rest, m); }
  }
}
