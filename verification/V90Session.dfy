/** A whole session: parameters by CP frame, tables on both sides, then data. */
module V90Session {
  import opened Bits
  import opened V90Tables
  import opened V90Radix
  import opened V90Slicer
  import opened V90Stream
  import opened V90Delay
  import opened V90Encoder
  import opened V90Decoder
  import opened V90CP

  /** A constellation that can be used with these rates. */
  ghost predicate Usable(s: Setup, isCP: bit) {
    && SetupOk(s) && RateFits(s, isCP) && s.K <= 31
    && CodesBelow(s.used, CODES) != [] && Pow2(s.K) <= Product(ParamsOf(s).M)
    && (s.alaw || s.used[0] == 0)   // the u-law's weakest code has level zero
  }

  lemma ListIsOk(used: seq<bit>)
    requires |used| == CODES && CodesBelow(used, CODES) != []
    ensures CodesOk(CodesBelow(used, CODES), |CodesBelow(used, CODES)|)
  {
    hide CodesBelow;
  }

  lemma WeakestUsed(alaw: bool, used: seq<bit>)
    requires |used| == CODES && CodesBelow(used, CODES) != [] && (alaw || used[0] == 0)
    ensures var c := CodesBelow(used, CODES); Levels(alaw)[c[|c| - 1]] > 0
  {
    hide CodesBelow, Levels;
    var c := CodesBelow(used, CODES);
    var last := c[|c| - 1];
    LevelsAscend(alaw, 0, 1);
    if last > 0 { LevelsAscend(alaw, 0, last); }
  }

  lemma UsableIsSound(s: Setup, isCP: bit)
    requires Usable(s, isCP)
    ensures Sound(ParamsOf(s)) && Signable(ParamsOf(s))
  {
    hide CodesBelow, Levels, CodesOk, Product, Pow2;
    ListIsOk(s.used);
    WeakestUsed(s.alaw, s.used);
    var p := ParamsOf(s);
    assert |p.M| == 6 && |p.codes| == 6;
  }

  /** The decoder's tables for a setup that uses one constellation everywhere. */
  method DecodeInit(s: Setup) returns (tabs: seq<seq<nat>>)
    requires SetupOk(s) && Sound(ParamsOf(s))
    ensures TablesMatch(ParamsOf(s), tabs)
  {
    hide CodesBelow, Levels, Row;
    tabs := [];
    var j := 0;
    while j < 6
      invariant 0 <= j <= 6 && |tabs| == j
      invariant forall k :: 0 <= k < j ==> tabs[k] == Row(ParamsOf(s), k)
    {
      var tab, m := ListLevels(s.alaw, s.used);
      SameRow(s, j, tab);
      tabs := tabs + [tab];
      j := j + 1;
    }
  }

  lemma SameRow(s: Setup, j: nat, tab: seq<nat>)
    requires SetupOk(s) && Sound(ParamsOf(s)) && j < 6
    requires |tab| == CODES && LevelsOf(s.alaw, tab, CodesBelow(s.used, CODES))
    ensures tab == Row(ParamsOf(s), j)
  {
    hide CodesBelow, Levels;
    DescendingCount(CodesBelow(s.used, CODES), |CodesBelow(s.used, CODES)|);
    var row := Row(ParamsOf(s), j);
    forall k | 0 <= k < CODES ensures tab[k] == row[k] {}
  }

  /** Negotiate, then transmit: every frame comes back, d frames late. */
  method Session(s: Setup, isCP: bit, ack: bit, input: seq<seq<u1>>, ghost d: nat) returns (output: seq<seq<u1>>)
    requires Usable(s, isCP) && FramesOk(ParamsOf(s), input) && Delay(ParamsOf(s), d) && (s.alaw || d == 0)
    ensures |output| == |input| && forall n :: d <= n < |input| ==> output[n] == input[n - d]
  {
    hide CodesBelow, Product, Pow2, Delay;
    UsableIsSound(s, isCP);
    var r := Negotiate(s, isCP, ack);
    var tabs := DecodeInit(s);
    var enc := new V90EncodeState(r.p, r.c);
    var dec := new V90DecodeState(r.p, tabs);
    output := Transmit(enc, dec, input, d);
  }
}
