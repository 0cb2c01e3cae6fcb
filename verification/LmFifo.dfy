/** The queue between protocol and modulator: a ring buffer of small values, mostly bits. */
module LmFifo {
  import opened Bits

  /** What a full queue drops. */
  function Room(q: seq<byte>, max: nat): (r: seq<byte>)
    ensures |r| <= max && r <= q
  {
    if |q| <= max then q else q[..max]
  }

  predicate AllBits(q: seq<byte>) {
    forall i :: 0 <= i < |q| ==> q[i] <= 1
  }

  function AsBits(q: seq<byte>): (s: seq<bit>)
    requires AllBits(q)
    ensures |s| == |q| && forall i :: 0 <= i < |q| ==> s[i] == q[i]
  {
    seq(|q|, i requires 0 <= i < |q| => q[i])
  }

  /** The number written by the first n values. */
  function Front(q: seq<byte>, n: nat): nat
    requires AllBits(q) && n <= |q|
  {
    Val(AsBits(q)[..n])
  }

  lemma RoomStep(q: seq<byte>, s: seq<byte>, x: byte, max: nat)
    requires |q| <= max
    ensures Room(Room(q + s, max) + [x], max) == Room(q + (s + [x]), max)
  {
    assert q + (s + [x]) == q + s + [x];
  }

  lemma RoomStart(q: seq<byte>, v: nat, n: nat, max: nat)
    requires |q| <= max
    ensures Room(q + ToBits(v, n)[..0], max) == q && ToBits(v, n)[..n] == ToBits(v, n)
  {
    assert q + ToBits(v, n)[..0] == q;
  }

  lemma PutStep(q: seq<byte>, v: nat, n: nat, i: nat, max: nat)
    requires |q| <= max && i < n
    ensures Room(q + ToBits(v, n)[..n - i], max)
         == Room(Room(q + ToBits(v, n)[..n - 1 - i], max) + [Shr(v, i) % 2], max)
  {
    hide ToBits, Shr, Room;
    var b := Shr(v, i) % 2;
    BitAt(v, n, n - 1 - i);
    assert ToBits(v, n)[..n - i] == ToBits(v, n)[..n - 1 - i] + [b];
    RoomStep(q, ToBits(v, n)[..n - 1 - i], b, max);
  }

  function Shl(v: nat, i: nat): nat {
    v * Pow2(i)
  }

  lemma GetStep(q: seq<byte>, n: nat, i: nat)
    requires AllBits(q) && i < n <= |q|
    ensures Shl(Front(q, n - i), i) == Shl(Front(q, n - 1 - i), i + 1) + Shl(q[n - 1 - i], i)
    ensures q[n - 1 - i..][0] == q[n - 1 - i] && q[n - 1 - i..][1..] == q[n - i..]
  {
    hide Val;
    var s, b := AsBits(q)[..n - 1 - i], q[n - 1 - i];
    assert AsBits(q)[..n - i] == s + [b];
    ValSnoc(s, b);
    NextPlace(Val(s), b, Pow2(i));
  }

  lemma AllGot(q: seq<byte>, n: nat)
    requires AllBits(q) && n <= |q|
    ensures Shl(Front(q, n), 0) == Front(q, n) && Shl(Front(q, 0), n) == 0
  {
  }

  lemma NothingGot(q: seq<byte>)
    requires AllBits(q)
    ensures Shl(Front(q, 0), 0) == 0 && q[0..] == q
  {
  }

  /** The n values from place r of a ring on. */
  function Ring(data: seq<byte>, r: nat, n: nat): (q: seq<byte>)
    requires r < |data| && n <= |data|
    ensures |q| == n
  {
    if r + n <= |data| then data[r..r + n] else data[r..] + data[..r + n - |data|]
  }

  lemma RingDrop(data: seq<byte>, r: nat, n: nat)
    requires r < |data| && 0 < n <= |data|
    ensures Ring(data, r, n)[0] == data[r]
    ensures Ring(data, if r + 1 == |data| then 0 else r + 1, n - 1) == Ring(data, r, n)[1..]
  {
  }

  lemma RingPut(data: seq<byte>, r: nat, n: nat, w: nat, x: byte)
    requires r < |data| && n < |data| && w == if r + n < |data| then r + n else r + n - |data|
    ensures Ring(data[w := x], r, n + 1) == Ring(data, r, n) + [x]
  {
  }

  class SmFifo {
    const data: array<byte>
    const maxSize: nat
    var wptr: nat
    var rptr: nat
    var size: nat

    ghost predicate Valid()
      reads this, data
    {
      && data.Length == maxSize > 0 && size <= maxSize && rptr < maxSize
      && wptr == (if rptr + size < maxSize then rptr + size else rptr + size - maxSize)
    }

    /** The values queued, oldest first. */
    ghost function Contents(): (q: seq<byte>)
      requires Valid()
      reads this, data
      ensures |q| == size
    {
      Ring(data[..], rptr, size)
    }

    constructor (max: nat)
      requires max > 0
      ensures Valid() && Contents() == [] && maxSize == max && fresh(data)
    {
      maxSize := max;
      data := new byte[max](_ => 0);
      wptr, rptr, size := 0, 0, 0;
    }

    method Flush()
      requires Valid()
      modifies this
      ensures Valid() && Contents() == []
    {
      wptr, rptr, size := 0, 0, 0;
    }

    method Size() returns (n: nat)
      requires Valid()
      ensures n == |Contents()|
    {
      n := size;
    }

    method PutBit(v: byte)
      requires Valid()
      modifies this`wptr, this`size, data
      ensures Valid() && Contents() == Room(old(Contents()) + [v], maxSize)
    {
      hide Ring;
      if size < maxSize {
        RingPut(data[..], rptr, size, wptr, v);
        data[wptr] := v;
        wptr := wptr + 1;
        if wptr == maxSize { wptr := 0; }
        size := size + 1;
      }
    }

    /** Put n bits of v, most significant first. */
    method PutBits(v: nat, n: nat)
      requires Valid()
      modifies this`wptr, this`size, data
      ensures Valid() && Contents() == Room(old(Contents()) + ToBits(v, n), maxSize)
    {
      hide Contents, Room, ToBits, Shr, Ring;
      ghost var q := Contents();
      var i := n;
      RoomStart(q, v, n, maxSize);
      while i > 0
        invariant 0 <= i <= n && Valid()
        invariant Contents() == Room(q + ToBits(v, n)[..n - i], maxSize)
        modifies this`wptr, this`size, data
      {
        i := i - 1;
        var b := Shr(v, i) % 2;
        PutStep(q, v, n, i, maxSize);
        PutBit(b);
      }
    }

    method PeekBit() returns (v: int)
      requires Valid()
      ensures v == if Contents() == [] then -1 else Contents()[0]
    {
      v := if size > 0 then data[rptr] else -1;
    }

    method GetBit() returns (v: int)
      requires Valid()
      modifies this`rptr, this`size
      ensures Valid()
      ensures old(Contents()) == [] ==> v == -1 && Contents() == []
      ensures old(Contents()) != [] ==> v == old(Contents())[0] && Contents() == old(Contents())[1..]
    {
      hide Ring;
      if size > 0 {
        RingDrop(data[..], rptr, size);
        size := size - 1;
        v := data[rptr];
        rptr := rptr + 1;
        if rptr == maxSize { rptr := 0; }
      } else {
        v := -1;
      }
    }

    /** Get n bits, most significant first, or -1 if there are fewer. */
    method GetBits(n: nat) returns (v: int)
      requires Valid() && AllBits(Contents())
      modifies this`rptr, this`size
      ensures Valid()
      ensures |old(Contents())| < n ==> v == -1 && Contents() == old(Contents())
      ensures |old(Contents())| >= n ==> v == Front(old(Contents()), n) && Contents() == old(Contents())[n..]
    {
      if size < n { return -1; }
      hide Contents, Front, Shl, Ring, AllBits;
      ghost var q := Contents();
      NothingGot(q);
      AllGot(q, n);
      v := 0;
      var i := n;
      while i > 0
        invariant 0 <= i <= n <= |q| && Valid() && Contents() == q[n - i..]
        invariant v == Shl(Front(q, n - i), i)
        modifies this`rptr, this`size
      {
        i := i - 1;
        GetStep(q, n, i);
        var b := GetBit();
        v := v + Shl(b, i);
      }
    }
  }

  lemma NextPlace(v: nat, b: nat, p: nat)
    ensures v * (2 * p) + b * p == (2 * v + b) * p
  {
  }

  lemma BitAt(v: nat, n: nat, k: nat)
    requires k < n
    ensures ToBits(v, n)[k] == Shr(v, n - 1 - k) % 2
  {
    var m := n - 1 - k;
    ToBitsSplit(v, k + 1, m);
    assert ToBits(v, n) == ToBits(Shr(v, m), k + 1) + ToBits(v, m);
  }

  /** What is put as n bits on an empty queue with room is got back, modulo 2^n. */
  lemma BitsGotBack(v: nat, n: nat, max: nat)
    requires n <= max
    ensures AllBits(Room(ToBits(v, n), max)) && Front(Room(ToBits(v, n), max), n) == v % Pow2(n)
  {
    assert AsBits(Room(ToBits(v, n), max))[..n] == ToBits(v, n);
    ValToBits(v, n);
  }
}
