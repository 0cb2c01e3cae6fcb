/** Finding the level nearest to a received magnitude. */
module V90Slicer {
  const CODES: nat := 128

  /** Levels in strictly descending order, then zeros. */
  ghost predicate Table(tab: seq<nat>, m: nat) {
    && |tab| == CODES && 1 <= m <= CODES
    && (forall a, b :: 0 <= a < b < m ==> tab[b] < tab[a])
    && (forall k :: m <= k < CODES ==> tab[k] == 0)
  }

  /** Magnitudes for which the search stays inside the table. */
  predicate InRange(tab: seq<nat>, m: nat, val: nat)
    requires |tab| == CODES && 1 <= m <= CODES
  {
    val <= tab[0] && (m < CODES || tab[m - 1] <= val)
  }

  /** How many of the first m levels are above val. */
  function Above(tab: seq<nat>, m: nat, val: nat): (c: nat)
    requires m <= |tab|
    ensures c <= m
  {
    if m == 0 then 0 else Above(tab, m - 1, val) + if tab[m - 1] > val then 1 else 0
  }

  /** The level chosen for a magnitude: the nearer of those around it, the lower one on a tie. */
  function Slice(tab: seq<nat>, m: nat, val: nat): (k: nat)
    requires |tab| == CODES && 1 <= m <= CODES && InRange(tab, m, val)
    ensures k <= m
  {
    var c := Above(tab, m, val);
    if c == 0 || c == CODES then 0 else if tab[c - 1] - val < val - tab[c] then c - 1 else c
  }

  lemma {:induction false} AboveIs(tab: seq<nat>, m: nat, val: nat, c: nat)
    requires c <= m <= |tab|
    requires forall k :: 0 <= k < c ==> tab[k] > val
    requires forall k :: c <= k < m ==> tab[k] <= val
    ensures Above(tab, m, val) == c
  {
    if m != 0 { AboveIs(tab, m - 1, val, if c == m then c - 1 else c); }
  }

  /** The levels above val come first. */
  lemma {:induction false} AboveSplits(tab: seq<nat>, m: nat, val: nat)
    requires m <= |tab| && forall a, b :: 0 <= a < b < m ==> tab[b] < tab[a]
    ensures var c := Above(tab, m, val);
      (forall k :: 0 <= k < c ==> tab[k] > val) && (forall k :: c <= k < m ==> tab[k] <= val)
  {
    if m != 0 { AboveSplits(tab, m - 1, val); }
  }

  function Distance(a: int, b: int): nat {
    if a < b then b - a else a - b
  }

  /** Within the range of the levels the choice is a nearest one, and the last of those. */
  lemma SliceNearest(tab: seq<nat>, m: nat, val: nat)
    requires Table(tab, m) && tab[m - 1] <= val <= tab[0]
    ensures var s := Slice(tab, m, val);
      && s < m
      && (forall k :: 0 <= k < m ==> Distance(tab[s], val) <= Distance(tab[k], val))
      && (forall k :: s < k < m ==> Distance(tab[s], val) < Distance(tab[k], val))
  {
    AboveSplits(tab, m, val);
  }

  /** Below the weakest level the choice is that level exactly for magnitudes above half of it. */
  lemma SliceBelow(tab: seq<nat>, m: nat, val: nat)
    requires Table(tab, m) && m < CODES && val < tab[m - 1]
    ensures Slice(tab, m, val) == if 2 * val > tab[m - 1] then m - 1 else m
  {
    AboveSplits(tab, m, val);
    assert forall a :: 0 <= a < m - 1 ==> tab[m - 1] < tab[a];
  }

  /** Exactly the magnitudes between the two midpoints around a level are taken for it. */
  lemma SliceRegion(tab: seq<nat>, m: nat, k: nat, val: nat)
    requires Table(tab, m) && k < m && InRange(tab, m, val) && (m < CODES ==> tab[m - 1] > 0)
    ensures Slice(tab, m, val) == k <==>
      (k == 0 || 2 * val <= tab[k - 1] + tab[k]) && (k == CODES - 1 || 2 * val > tab[k] + tab[k + 1])
  {
    AboveSplits(tab, m, val);
    var c := Above(tab, m, val);
    assert forall a :: 0 <= a < m && a < k ==> tab[k] < tab[a];
    assert k < c ==> tab[k] > val;
    assert c < k ==> tab[k] < tab[c];
    assert k > 0 && c < k ==> tab[k - 1] <= val;
    assert k + 1 < m ==> tab[k + 1] < tab[k];
    assert k + 1 < c ==> tab[k + 1] > val;
  }

  /**
   A level disturbed by less than half of the smallest gap between levels is still recognised;
   below the weakest level the disturbance must also be less than half of that level.
   */
  lemma SliceRobust(tab: seq<nat>, m: nat, k: nat, val: nat)
    requires Table(tab, m) && k < m && InRange(tab, m, val)
    requires forall j :: 0 <= j < m - 1 ==> 2 * Distance(tab[k], val) + tab[j + 1] < tab[j]
    requires val < tab[m - 1] ==> 2 * Distance(tab[k], val) < tab[m - 1]
    ensures Slice(tab, m, val) == k
  {
    if k > 0 {
      assert 2 * Distance(tab[k], val) + tab[k - 1 + 1] < tab[k - 1];
    }
    if k < m - 1 {
      assert 2 * Distance(tab[k], val) + tab[k + 1] < tab[k];
      assert tab[m - 1] <= tab[k + 1];
    }
    AboveIs(tab, m, val, if tab[k] > val then k + 1 else k);
  }

  /** The slicer's search. */
  method FindLevel(tab: seq<nat>, size: nat, val: nat) returns (m: nat)
    requires Table(tab, size) && InRange(tab, size, val)
    ensures m == Slice(tab, size, val)
  {
    var min, max := 0, size - 1;
    while min <= max
      invariant 0 <= min <= max + 1 <= size
      invariant forall k :: 0 <= k < min ==> tab[k] > val
      invariant forall k :: max < k < size ==> tab[k] < val
      decreases max - min
    {
      var mid := (min + max) / 2;
      var v := tab[mid];
      if v == val {
        AboveIs(tab, size, val, mid);
        return mid;
      } else if val > v {
        max := mid - 1;
      } else {
        min := mid + 1;
      }
    }
    AboveIs(tab, size, val, min);
    var d1, d2 := tab[max] - val, val - tab[min];
    m := if d1 < d2 then max else min;
  }
}
