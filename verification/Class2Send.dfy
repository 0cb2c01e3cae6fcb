/** The send loop of a Class 2 session: pages, retries and the end of the session. */
module Class2Send {
  const NTXRETRY: nat := 3

  /** A page was sent and judged. */
  datatype Attempt = Attempt(page: nat, good: bool)

  /** The pages of the fax, of which one is open. */
  class PageFile {
    const pages: nat
    var page: nat

    constructor (pages: nat)
      requires pages >= 1
      ensures page == 0 && this.pages == pages
    {
      this.pages, page := pages, 0;
    }

    /** Open the next page if dp, else the same page again; fails past the last page. */
    method NextPage(dp: bool) returns (err: bool)
      modifies this
      ensures page == old(page) + (if dp then 1 else 0) && err == (page >= pages)
    {
      if dp { page := page + 1; }
      err := page >= pages;
    }

    predicate LastPage()
      reads this
    {
      page + 1 >= pages
    }
  }

  /** A page is opened anew only after the page before it was good; a bad page is sent again. */
  predicate Orderly(log: seq<Attempt>) {
    && (log != [] ==> log[0].page == 0)
    && forall i :: 0 <= i < |log| - 1 ==> log[i + 1].page == log[i].page + if log[i].good then 1 else 0
  }

  /** How often a page was sent. */
  function Tries(log: seq<Attempt>, page: nat): nat {
    if log == [] then 0 else
      Tries(log[..|log| - 1], page) + if log[|log| - 1].page == page then 1 else 0
  }

  predicate WasGood(log: seq<Attempt>, page: nat) {
    Attempt(page, true) in log
  }

  lemma TriesSnoc(log: seq<Attempt>, a: Attempt, page: nat)
    ensures Tries(log + [a], page) == Tries(log, page) + if a.page == page then 1 else 0
  {
    assert (log + [a])[..|log|] == log;
  }

  /** The page to send next. */
  function Due(log: seq<Attempt>): nat {
    if log == [] then 0 else
      var a := log[|log| - 1];
      a.page + if a.good then 1 else 0
  }

  /** So far every page was good that is not due, and the due page was sent `tries` times. */
  ghost predicate SoFar(log: seq<Attempt>, tries: nat) {
    && Orderly(log)
    && (forall p :: 0 <= p < Due(log) ==> WasGood(log, p) && Tries(log, p) <= NTXRETRY)
    && (forall p :: p > Due(log) ==> Tries(log, p) == 0)
    && (forall p :: p >= Due(log) ==> !WasGood(log, p))
    && Tries(log, Due(log)) == tries
  }

  lemma OneMore(log: seq<Attempt>, tries: nat, good: bool)
    requires SoFar(log, tries) && tries < NTXRETRY
    ensures var log' := log + [Attempt(Due(log), good)];
      SoFar(log', if good then 0 else tries + 1) && Due(log') == Due(log) + if good then 1 else 0
  {
    var a := Attempt(Due(log), good);
    forall p: nat ensures Tries(log + [a], p) == Tries(log, p) + if a.page == p then 1 else 0 {
      TriesSnoc(log, a, p);
    }
    forall p | 0 <= p < Due(log) ensures WasGood(log + [a], p) {
      assert WasGood(log, p);
    }
    assert a in log + [a];
    forall p | p >= Due(log + [a]) ensures !WasGood(log + [a], p) {
      assert !WasGood(log, p);
    }
  }

  // ----- the receiver's judgement -----

  /** Every attempt was marked good exactly if the receiver took that try of its page, or retries are switched off. */
  ghost predicate Judged(log: seq<Attempt>, judge: (nat, nat) -> bool, noretry: bool) {
    log != [] ==>
      var last := |log| - 1;
      && log[last].good == (noretry || judge(log[last].page, Tries(log, log[last].page)))
      && Judged(log[..last], judge, noretry)
  }

  /** The receiver takes one of the three tries of a page. */
  predicate Taken(judge: (nat, nat) -> bool, page: nat) {
    judge(page, 1) || judge(page, 2) || judge(page, 3)
  }

  lemma JudgedMore(log: seq<Attempt>, page: nat, good: bool, judge: (nat, nat) -> bool, noretry: bool)
    requires Judged(log, judge, noretry) && good == (noretry || judge(page, Tries(log, page) + 1))
    ensures Judged(log + [Attempt(page, good)], judge, noretry)
  {
    var log' := log + [Attempt(page, good)];
    TriesSnoc(log, Attempt(page, good), page);
    assert log'[..|log|] == log;
  }

  /** No try of a page that was never good was taken. */
  lemma {:induction false} NoneTaken(log: seq<Attempt>, judge: (nat, nat) -> bool, noretry: bool, page: nat, t: nat)
    requires Judged(log, judge, noretry) && !WasGood(log, page) && 1 <= t <= Tries(log, page)
    ensures !noretry && !judge(page, t)
  {
    var n := |log| - 1;
    assert log[n] in log;
    if t <= Tries(log[..n], page) { NoneTaken(log[..n], judge, noretry, page, t); }
  }

  /** Some try of a page that was good was taken. */
  lemma {:induction false} SomeTaken(log: seq<Attempt>, judge: (nat, nat) -> bool, noretry: bool, page: nat)
    requires Judged(log, judge, noretry) && WasGood(log, page) && !noretry
    ensures exists t {:trigger judge(page, t)} :: 1 <= t <= Tries(log, page) && judge(page, t)
  {
    var n := |log| - 1;
    if log[n] == Attempt(page, true) {
      assert judge(page, Tries(log, page));
    } else {
      assert log == log[..n] + [log[n]];
      SomeTaken(log[..n], judge, noretry, page);
    }
  }

  /** The end of the session, by the receiver's judgement alone. */
  lemma Verdict(log: seq<Attempt>, judge: (nat, nat) -> bool, noretry: bool, pages: nat, err: bool)
    requires Judged(log, judge, noretry) && forall p :: p >= 0 ==> Tries(log, p) <= NTXRETRY
    requires !err ==> forall p :: 0 <= p < pages ==> WasGood(log, p)
    requires err ==> Due(log) < pages && Tries(log, Due(log)) == NTXRETRY && !WasGood(log, Due(log))
    ensures err <==> !noretry && exists p :: 0 <= p < pages && !Taken(judge, p)
  {
    if err {
      var p := Due(log);
      NoneTaken(log, judge, noretry, p, 1);
      NoneTaken(log, judge, noretry, p, 2);
      NoneTaken(log, judge, noretry, p, 3);
      assert !Taken(judge, p);
    } else if !noretry {
      forall p | 0 <= p < pages ensures Taken(judge, p) {
        SomeTaken(log, judge, noretry, p);
      }
    }
  }

  lemma NothingSent(judge: (nat, nat) -> bool, noretry: bool)
    ensures SoFar([], 0) && Judged([], judge, noretry)
  {
  }

  lemma DueTries(log: seq<Attempt>, tries: nat)
    requires SoFar(log, tries)
    ensures Tries(log, Due(log)) == tries
  {
  }

  lemma Ending(log: seq<Attempt>, tries: nat)
    requires SoFar(log, tries) && tries <= NTXRETRY
    ensures Orderly(log) && Tries(log, Due(log)) == tries && !WasGood(log, Due(log))
    ensures forall p :: p >= 0 ==> Tries(log, p) <= NTXRETRY
    ensures forall p :: p > Due(log) ==> Tries(log, p) == 0
    ensures forall p :: 0 <= p < Due(log) ==> WasGood(log, p)
  {
  }

  /**
   Send all pages. judge tells whether the receiver takes the given try of the given page as good.
   No page is sent more than three times, and whether a page was good is as it was judged; the session fails
   exactly if retries count and the receiver takes none of the three tries of some page.
   */
  method SendPages(inf: PageFile, judge: (nat, nat) -> bool, noretry: bool) returns (err: bool, log: seq<Attempt>)
    requires inf.pages >= 1 && inf.page == 0
    modifies inf
    ensures Orderly(log) && forall p :: p >= 0 ==> Tries(log, p) <= NTXRETRY
    ensures forall p :: p >= inf.pages ==> Tries(log, p) == 0
    ensures !err ==> forall p :: 0 <= p < inf.pages ==> WasGood(log, p)
    ensures err ==> !noretry && Due(log) < inf.pages && Tries(log, Due(log)) == NTXRETRY && !WasGood(log, Due(log))
    ensures Judged(log, judge, noretry)
    ensures err <==> !noretry && exists p :: 0 <= p < inf.pages && !Taken(judge, p)
  {
    hide SoFar, Judged, Tries, Orderly, WasGood, Taken;
    log := [];
    err := false;
    NothingSent(judge, noretry);
    var done, dp, pagetry := false, false, 0;
    while !err && !done
      invariant SoFar(log, if done then 0 else pagetry) && Judged(log, judge, noretry)
      invariant !done ==> inf.page + (if dp then 1 else 0) == Due(log) < inf.pages
      invariant pagetry <= NTXRETRY && (!done && !err ==> pagetry < NTXRETRY)
      invariant done ==> !err && Due(log) == inf.pages
      invariant err ==> !noretry && pagetry == NTXRETRY
      decreases !done && !err, inf.pages - Due(log), NTXRETRY - pagetry
    {
      err := inf.NextPage(dp);
      var eop := inf.LastPage();
      pagetry := pagetry + 1;
      var good := judge(inf.page, pagetry);
      if noretry { good := true; }
      DueTries(log, pagetry - 1);
      OneMore(log, pagetry - 1, good);
      JudgedMore(log, inf.page, good, judge, noretry);
      log := log + [Attempt(inf.page, good)];
      if good {
        pagetry := 0;
        dp := true;
        if eop {
          var past := inf.NextPage(true);
          done := true;
        }
      } else {
        dp := false;
        if pagetry >= NTXRETRY { err := true; }
      }
      if good && inf.LastPage() && !done { done := true; }
    }
    Ending(log, if done then 0 else pagetry);
    Verdict(log, judge, noretry, inf.pages, err);
  }
}
