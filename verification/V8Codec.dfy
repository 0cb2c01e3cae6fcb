/** V.8 sequences: the octets of CM and JM, and the choice of a modulation. */
module V8Codec {
  import opened Bits

  /** A set of modulations, or one of them, as bits. */
  datatype Modes = Modes(bits: bv32)

  const NONE := Modes(0)

  const V90: bv32 := 1
  const V34: bv32 := 2
  const V23: bv32 := 0x400
  const V21: bv32 := 0x1000
  const HANGUP := Modes(0x8000)
  const KNOWN := Modes(0x1403)   // the modulations a sequence can name

  const CALL_FUNC_DATA: byte := 0x83
  const MODN0: byte := 0xA0
  const EXT: byte := 0x08

  predicate Has(mask: Modes, m: bv32) {
    mask.bits & m != 0
  }

  function When(c: bool, v: nat): nat {
    if c then v else 0
  }

  /** The four octets of a CM or JM sequence. */
  function Octets(mask: Modes): (o: seq<byte>)
    ensures |o| == 4
  {
    [CALL_FUNC_DATA, MODN0 + When(Has(mask, V90), 4) + When(Has(mask, V34), 2),
     EXT, EXT + When(Has(mask, V23), 0x20) + When(Has(mask, V21), 1)]
  }

  /** Bit of weight w. */
  predicate Set(c: byte, w: nat)
    requires w > 0
  {
    (c / w) % 2 == 1
  }

  predicate IsExt(c: byte) {
    (c / 4) % 8 == 2
  }

  /** An octet of the sequence; a zero marks its end. */
  function At(s: seq<byte>, i: nat): byte {
    if i < |s| then s[i] else 0
  }

  function Mask(c: bool, m: bv32): bv32 {
    if c then m else 0
  }

  /** The modulations named by a received sequence. */
  function Decode(s: seq<byte>): Modes {
    if At(s, 0) != CALL_FUNC_DATA || At(s, 1) / 8 != MODN0 / 8 then NONE else
      var first := Mask(Set(At(s, 1), 4), V90) | Mask(Set(At(s, 1), 2), V34);
      if !IsExt(At(s, 2)) || !IsExt(At(s, 3)) then Modes(first) else
        Modes(first | Mask(Set(At(s, 3), 0x20), V23) | Mask(Set(At(s, 3), 1), V21))
  }

  /** What is decoded from a CM or JM is what was offered, as far as the sequence can say it. */
  lemma OctetsDecode(mask: Modes)
    ensures Decode(Octets(mask)) == Common(mask, KNOWN)
  {
    hide Has, Set, IsExt, Mask;
    var o, a, b, c, d := Octets(mask), Has(mask, V90), Has(mask, V34), Has(mask, V23), Has(mask, V21);
    FirstOctet(a, b);
    LastOctet(c, d);
    LastOctet(false, false);
    KnownBits(mask);
  }

  lemma FirstOctet(a: bool, b: bool)
    ensures var v := MODN0 + When(a, 4) + When(b, 2); v / 8 == MODN0 / 8 && Set(v, 4) == a && Set(v, 2) == b
  {
  }

  lemma LastOctet(c: bool, d: bool)
    ensures var v := EXT + When(c, 0x20) + When(d, 1); IsExt(v) && Set(v, 0x20) == c && Set(v, 1) == d
  {
  }

  lemma KnownBits(mask: Modes)
    ensures Mask(Has(mask, V90), V90) | Mask(Has(mask, V34), V34)
            | Mask(Has(mask, V23), V23) | Mask(Has(mask, V21), V21)
         == mask.bits & KNOWN.bits
  {
  }

  /** The modulations two masks have in common. */
  function Common(a: Modes, b: Modes): Modes {
    Modes(a.bits & b.bits)
  }

  /** Modulations in the order of preference. */
  function Preference(k: nat): Modes
    requires k < 4
  {
    if k == 0 then Modes(V90) else if k == 1 then Modes(V34) else if k == 2 then Modes(V23) else Modes(V21)
  }

  predicate Offers(mask: Modes, k: nat)
    requires k < 4
  {
    Has(mask, Preference(k).bits)
  }

  /** The modulation chosen from those in common: the first in the order of preference. */
  function SelectModulation(mask: Modes): (val: Modes)
    ensures val != NONE
    ensures val == HANGUP <==> Common(mask, KNOWN) == NONE
    ensures val != HANGUP ==> Common(val, mask) == val
  {
    if Has(mask, V90) then Modes(V90) else if Has(mask, V34) then Modes(V34) else if Has(mask, V23) then Modes(V23)
    else if Has(mask, V21) then Modes(V21) else HANGUP
  }

  /** What is chosen is offered, and nothing before it in the order of preference is. */
  lemma FirstPreferred(mask: Modes, k: nat)
    requires k < 4
    ensures SelectModulation(mask) == Preference(k) <==> Offers(mask, k) && forall j :: 0 <= j < k ==> !Offers(mask, j)
  {
    assert SelectModulation(mask) != HANGUP ==> exists i :: 0 <= i < 4 && Offers(mask, i) by {
      if !Offers(mask, 0) && !Offers(mask, 1) && !Offers(mask, 2) {
        assert Offers(mask, 3) || SelectModulation(mask) == HANGUP;
      }
    }
    if k > 0 { assert Offers(mask, 0) ==> SelectModulation(mask) == Preference(0); }
    if k > 1 { assert Offers(mask, 1) && !Offers(mask, 0) ==> SelectModulation(mask) == Preference(1); }
    if k > 2 {
      assert Offers(mask, 2) && !Offers(mask, 1) && !Offers(mask, 0) ==> SelectModulation(mask) == Preference(2);
    }
  }

  /** Both sides' choices agree: from the answerer's reading of the CM, and from the caller's reading of the JM. */
  lemma ChoicesAgree(caller: Modes, answerer: Modes)
    ensures var jm := Common(answerer, Common(caller, KNOWN));
      && SelectModulation(jm) == SelectModulation(Common(caller, answerer))
      && SelectModulation(Common(caller, Common(jm, KNOWN))) == SelectModulation(Common(caller, answerer))
  {
    OnlyKnown(caller, answerer, V90);
    OnlyKnown(caller, answerer, V34);
    OnlyKnown(caller, answerer, V23);
    OnlyKnown(caller, answerer, V21);
  }

  lemma OnlyKnown(caller: Modes, answerer: Modes, m: bv32)
    requires m & KNOWN.bits == m
    ensures var jm := Common(answerer, Common(caller, KNOWN)); Has(jm, m) == Has(Common(caller, answerer), m)
    ensures var jm := Common(answerer, Common(caller, KNOWN));
      Has(Common(caller, Common(jm, KNOWN)), m) == Has(Common(caller, answerer), m)
  {
  }
}
