/** The union of two scan lines. */
module RunOr {
  import opened Runs

  const MAXRUNS: nat := 8192

  /** Pixelwise OR, the shorter line padded with white. */
  function Or(a: seq<bool>, b: seq<bool>): (p: seq<bool>)
    ensures |p| == if |a| > |b| then |a| else |b|
    ensures forall i :: 0 <= i < |p| ==> p[i] == ((i < |a| && a[i]) || (i < |b| && b[i]))
  {
    seq(if |a| > |b| then |a| else |b|, i requires 0 <= i => (i < |a| && a[i]) || (i < |b| && b[i]))
  }

  /** The rest of a line: what is left of run i, and the runs after it. */
  function Rest(line: seq<int>, i: nat, left: nat): seq<bool>
    requires i < |line|
  {
    Same(Black(i), left) + From(line, i + 1)
  }

  /** Put n pixels of a colour at the end of the runs made so far. */
  function Put(c: seq<int>, black: bool, n: nat): (r: seq<int>)
    requires c != [] && Proper(c)
    ensures Proper(r) && |c| <= |r| <= |c| + 1
  {
    if black == Black(|c| - 1) then c[|c| - 1 := c[|c| - 1] + n] else c + [n]
  }

  lemma PutPixels(c: seq<int>, black: bool, n: nat)
    requires c != [] && Proper(c)
    ensures Pixels(Put(c, black, n)) == Pixels(c) + Same(black, n)
  {
    hide Pixels, Same;
    if black == Black(|c| - 1) {
      GrowLast(c, n);
    } else {
      PixelsSnoc(c, n);
    }
  }

  lemma OrConcat(a: seq<bool>, b: seq<bool>, a': seq<bool>, b': seq<bool>)
    requires |a| == |b|
    ensures Or(a + a', b + b') == Or(a, b) + Or(a', b')
  {
  }

  lemma OrSame(x: bool, y: bool, n: nat)
    ensures Or(Same(x, n), Same(y, n)) == Same(x || y, n)
  {
  }

  lemma OrNothing(a: seq<bool>)
    ensures Or(a, []) == a && Or([], a) == a
  {
  }

  /** n pixels off the front of both lines. */
  lemma OrFront(x: bool, y: bool, n: nat, a: seq<bool>, b: seq<bool>)
    ensures Or(Same(x, n) + a, Same(y, n) + b) == Same(x || y, n) + Or(a, b)
  {
    hide Same, Or;
    OrConcat(Same(x, n), Same(y, n), a, b);
    OrSame(x, y, n);
  }

  lemma RestSplit(line: seq<int>, i: nat, left: nat, n: nat)
    requires i < |line| && n <= left
    ensures Rest(line, i, left) == Same(Black(i), n) + Rest(line, i, left - n)
  {
    hide Same, From;
    SameConcat(Black(i), n, left - n);
    var s, t, f := Same(Black(i), n), Same(Black(i), left - n), From(line, i + 1);
    assert (s + t) + f == s + (t + f);
  }

  lemma RestNext(line: seq<int>, i: nat)
    requires i < |line| && Proper(line)
    ensures Rest(line, i, 0) == if i + 1 < |line| then Rest(line, i + 1, line[i + 1]) else []
  {
    assert Same(Black(i), 0) + From(line, i + 1) == From(line, i + 1);
  }

  lemma RestStart(line: seq<int>)
    requires line != [] && Proper(line)
    ensures Pixels(line) == Rest(line, 0, line[0])
  {
    hide Same, Pixels;
    SplitAt(line, 0);
    assert line[..0] == [];
    NoPixels();
    assert [] + From(line, 0) == From(line, 0);
  }

  lemma Assoc(a: seq<bool>, b: seq<bool>, c: seq<bool>)
    ensures a + (b + c) == (a + b) + c
  {
  }

  /** One step of the merge: n pixels of both lines' current runs. */
  lemma MergeStep(c: seq<int>, a: seq<int>, ia: nat, la: nat, b: seq<int>, ib: nat, lb: nat, n: nat)
    requires c != [] && Proper(c) && ia < |a| && ib < |b| && n <= la && n <= lb
    ensures Pixels(Put(c, Black(ia) || Black(ib), n)) + Or(Rest(a, ia, la - n), Rest(b, ib, lb - n))
         == Pixels(c) + Or(Rest(a, ia, la), Rest(b, ib, lb))
  {
    hide Pixels, Same, Rest, Or, Put;
    PutPixels(c, Black(ia) || Black(ib), n);
    RestSplit(a, ia, la, n);
    RestSplit(b, ib, lb, n);
    OrFront(Black(ia), Black(ib), n, Rest(a, ia, la - n), Rest(b, ib, lb - n));
    Assoc(Pixels(c), Same(Black(ia) || Black(ib), n), Or(Rest(a, ia, la - n), Rest(b, ib, lb - n)));
  }

  /** One step of copying what is left of one line. */
  lemma CopyStep(c: seq<int>, a: seq<int>, ia: nat, la: nat)
    requires c != [] && Proper(c) && ia < |a|
    ensures Pixels(Put(c, Black(ia), la)) + Rest(a, ia, 0) == Pixels(c) + Rest(a, ia, la)
  {
    hide Pixels, Same, Rest, Put;
    PutPixels(c, Black(ia), la);
    RestSplit(a, ia, la, la);
    Assoc(Pixels(c), Same(Black(ia), la), Rest(a, ia, 0));
  }

  /** Add n pixels to the output runs, as the merge does: c[..ic + 1] are made. */
  method PutRun(c: array<int>, ic: nat, black: bool, n: nat) returns (jc: nat)
    requires ic < c.Length && Proper(c[..ic + 1]) && (black != Black(ic) ==> ic + 1 < c.Length)
    modifies c
    ensures jc < c.Length && c[..jc + 1] == Put(old(c[..ic + 1]), black, n)
    ensures jc == if black != Black(ic) then ic + 1 else ic
  {
    ghost var done := c[..ic + 1];
    jc := ic;
    if black != Black(ic) {
      jc := ic + 1;
      c[jc] := n;
      assert c[..jc + 1] == done + [n];
    } else {
      c[ic] := c[ic] + n;
      assert c[..ic + 1] == done[ic := done[ic] + n];
    }
  }

  /** Copy the rest of line a, from `left` pixels of run i on. */
  method CopyRest(c: array<int>, ic: nat, a: array<int>, na: nat, i: nat, left: nat) returns (jc: nat)
    requires na <= a.Length && i < na && Proper(a[..na]) && c != a
    requires ic < c.Length && Proper(c[..ic + 1]) && ic + (na - i) < c.Length
    modifies c
    ensures jc <= ic + (na - i) && Proper(c[..jc + 1])
    ensures Pixels(c[..jc + 1]) == old(Pixels(c[..ic + 1])) + Rest(a[..na], i, left)
  {
    hide Pixels, Rest, Put;
    ghost var line, goal := a[..na], Pixels(c[..ic + 1]) + Rest(a[..na], i, left);
    var k, la: nat := i, left;
    jc := ic;
    while true
      invariant i <= k < na && jc <= ic + (k - i) && Proper(c[..jc + 1]) && a[..na] == line
      invariant Pixels(c[..jc + 1]) + Rest(line, k, la) == goal
      decreases na - k
    {
      CopyStep(c[..jc + 1], line, k, la);
      RestNext(line, k);
      jc := PutRun(c, jc, Black(k), la);
      k := k + 1;
      if k >= na { break; }
      la := a[k];
    }
    assert Pixels(c[..jc + 1]) + [] == Pixels(c[..jc + 1]);
  }

  /** OR two lines into c; returns the number of runs. */
  method Merge(a: array<int>, na: nat, b: array<int>, nb: nat, c: array<int>) returns (nc: nat)
    requires 0 < na <= a.Length && 0 < nb <= b.Length && Proper(a[..na]) && Proper(b[..nb])
    requires c != a && c != b && na + nb <= c.Length
    modifies c
    ensures 1 <= nc <= na + nb && Proper(c[..nc]) && Pixels(c[..nc]) == Or(Pixels(a[..na]), Pixels(b[..nb]))
  {
    hide Pixels, Rest, Put, Or, Black, Same, From;
    ghost var linea, lineb := a[..na], b[..nb];
    ghost var goal := Or(Pixels(linea), Pixels(lineb));
    var ia, ib, ic, la: nat, lb: nat := 0, 0, 0, a[0], b[0];
    c[0] := 0;
    assert c[..1] == [0];
    StartMerge(linea, lineb);
    while true
      invariant 0 <= ia < na && 0 <= ib < nb && a[..na] == linea && b[..nb] == lineb
      invariant ic < na + nb && Proper(c[..ic + 1]) && (if ia + ib == 0 then ic == 0 else ic < ia + ib)
      invariant Pixels(c[..ic + 1]) + Or(Rest(linea, ia, la), Rest(lineb, ib, lb)) == goal
      decreases na - ia + (nb - ib)
    {
      var n := if la <= lb then la else lb;
      var black := Black(ia) || Black(ib);
      MergeStep(c[..ic + 1], linea, ia, la, lineb, ib, lb, n);
      ic := PutRun(c, ic, black, n);
      if la <= lb {
        lb := lb - la;
        RestNext(linea, ia);
        ia := ia + 1;
        if ia >= na { break; }
        la := a[ia];
      } else {
        la := la - lb;
        RestNext(lineb, ib);
        ib := ib + 1;
        if ib >= nb { break; }
        lb := b[ib];
      }
    }
    if ia < na {
      OrNothing(Rest(linea, ia, la));
      ic := CopyRest(c, ic, a, na, ia, la);
    } else {
      OrNothing(Rest(lineb, ib, lb));
      ic := CopyRest(c, ic, b, nb, ib, lb);
    }
    nc := ic + 1;
  }

  lemma StartMerge(a: seq<int>, b: seq<int>)
    requires a != [] && b != [] && Proper(a) && Proper(b)
    ensures Pixels([0]) + Or(Rest(a, 0, a[0]), Rest(b, 0, b[0])) == Or(Pixels(a), Pixels(b))
  {
    hide Or, Rest;
    RestStart(a);
    RestStart(b);
    assert Pixels([0]) == [] by { ZerosVanish([0], 1); assert [0][..1] == [0]; }
    assert [] + Or(Pixels(a), Pixels(b)) == Or(Pixels(a), Pixels(b));
  }

  /** OR line b into line a; returns the number of runs and the new width. */
  method OrInPlace(a: array<int>, na: nat, b: array<int>, nb: nat) returns (nc: nat, pels: int)
    requires 0 < na && 0 < nb <= b.Length && na + nb <= a.Length && na + nb <= MAXRUNS && a != b
    requires Proper(a[..na]) && Proper(b[..nb])
    modifies a
    ensures 1 <= nc <= na + nb && Proper(a[..nc]) && Pixels(a[..nc]) == Or(old(Pixels(a[..na])), old(Pixels(b[..nb])))
    ensures pels == |Pixels(a[..nc])|
    ensures forall i :: na + nb <= i < a.Length ==> a[i] == old(a[i])
  {
    hide Pixels, Or, Width;
    var tmp := new int[MAXRUNS];
    nc := Merge(a, na, b, nb, tmp);
    ghost var line := tmp[..nc];
    WidthIs(line);
    pels := 0;
    var i := 0;
    NoPixels();
    assert line[..0] == [];
    while i < nc
      invariant 0 <= i <= nc && tmp[..nc] == line && pels == Width(line[..i])
      invariant forall k :: 0 <= k < i ==> a[k] == line[k]
      invariant forall k :: na + nb <= k < a.Length ==> a[k] == old(a[k])
    {
      WidthStep(line, i);
      assert tmp[i] == line[i];
      a[i] := tmp[i];
      pels := pels + tmp[i];
      i := i + 1;
    }
    assert a[..nc] == line && line[..nc] == line;
  }
}
