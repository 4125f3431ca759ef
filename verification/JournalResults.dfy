/**
 What writepage, write_begin and write_end of fs/journal/address_mapping.c leave behind and return,
 block by block, said from the caller's data and the library's answers alone.
 */
module JournalResults {
  import opened JournalWalk
  import opened JournalPage
  import opened JournalSafety

  /** Block j has bytes between `lo` and `hi`, or contains both if they are equal. */
  predicate Touches(j: nat, bs: nat, lo: nat, hi: nat) {
    lo < j * bs + bs && j * bs < hi
  }

  lemma TouchesIsInRange(j: nat, bs: nat, lo: nat, hi: nat)
    ensures Touches(j, bs, lo, hi) <==> InRange(j, bs, lo, hi)
  {
    assert (j + 1) * bs == j * bs + bs;
  }

  /** The library answers a callback on block j with an error. */
  predicate Fails(bufs: seq<Buf>, errs: seq<int>, j: nat)
    requires |errs| == |bufs|
  {
    j < |bufs| && bufs[j].mapped && !bufs[j].freed && errs[j] != 0
  }

  /** No block below j, of those between `lo` and `hi`, gets an error. */
  predicate Unfailed(bufs: seq<Buf>, errs: seq<int>, bs: nat, lo: nat, hi: nat, j: nat)
    requires |errs| == |bufs|
  {
    forall i: nat :: i < j && Touches(i, bs, lo, hi) ==> !Fails(bufs, errs, i)
  }

  lemma StopMeans(bufs: seq<Buf>, a: Args, j: nat)
    requires Ready(a, |bufs|) && j <= |bufs|
    ensures j <= StopAt(bufs, a, 0) <==> Unfailed(bufs, a.errs, a.bs, a.from, a.to, j)
  {
    hide InRange, Touches;
    var k := StopAt(bufs, a, 0);
    forall i: nat | i < |bufs| ensures Touches(i, a.bs, a.from, a.to) <==> InRange(i, a.bs, a.from, a.to) {
      TouchesIsInRange(i, a.bs, a.from, a.to);
    }
    if k < j { assert Fails(bufs, a.errs, k) && Touches(k, a.bs, a.from, a.to); }
  }

  /** The result of a walk: the error of the first block that gets one, or 0. */
  ghost predicate IsFirstError(bufs: seq<Buf>, errs: seq<int>, bs: nat, lo: nat, hi: nat, ret: int)
    requires |errs| == |bufs|
  {
    && (forall j: nat :: Fails(bufs, errs, j) && Touches(j, bs, lo, hi) && Unfailed(bufs, errs, bs, lo, hi, j) ==>
          ret == errs[j])
    && (Unfailed(bufs, errs, bs, lo, hi, |bufs|) ==> ret == 0)
    && (!Unfailed(bufs, errs, bs, lo, hi, |bufs|) ==> ret != 0)
  }

  lemma WalkResult(w: Walk, a: Args)
    requires Ready(a, |w.bufs|) && w.ret == 0
    ensures IsFirstError(w.bufs, a.errs, a.bs, a.from, a.to, WalkFrom(w, a, 0).ret)
  {
    hide InRange, Touches, WalkFrom;
    WalkReturns(w, a, 0);
    var k := StopAt(w.bufs, a, 0);
    StopMeans(w.bufs, a, |w.bufs|);
    forall j: nat | j < |w.bufs| && Fails(w.bufs, a.errs, j) && Touches(j, a.bs, a.from, a.to)
                    && Unfailed(w.bufs, a.errs, a.bs, a.from, a.to, j)
      ensures j == k
    {
      StopMeans(w.bufs, a, j);
      TouchesIsInRange(j, a.bs, a.from, a.to);
      assert j < k ==> CallRet(w.bufs[j], a.errs[j]) == 0;
    }
  }

  // ---- write_end ----

  /** How much of the write counts: all of a full copy; of a short one what arrived if the page was
      uptodate, else nothing. */
  function Arrived(p: Page, w: Write): nat {
    if w.copied < w.len then (if p.uptodate then w.copied else 0) else w.len
  }

  /** The walk of write_end comes to block j. */
  predicate Comes(p: Page, w: Write, j: nat)
    requires |w.dirty| == |p.bufs|
  {
    var from := w.pos % 4096;
    Unfailed(p.bufs, w.dirty, w.bs, from, from + Arrived(p, w), j)
  }

  /** Block j is in the part that was written and arrived. */
  predicate Written(p: Page, w: Write, j: nat) {
    var from := w.pos % 4096;
    Touches(j, w.bs, from, from + Arrived(p, w))
  }

  /** Block j is new and in the part that did not arrive. */
  predicate Zeroed(p: Page, w: Write, j: nat) {
    var from := w.pos % 4096;
    j < |p.bufs| && p.bufs[j].isNew && w.copied < w.len && Touches(j, w.bs, from + Arrived(p, w), from + w.len)
  }

  /** Block j is handed to the journal. */
  predicate HandedOver(p: Page, w: Write, j: nat)
    requires |w.dirty| == |p.bufs|
  {
    j < |p.bufs| && Comes(p, w, j) && Written(p, w, j) && p.bufs[j].mapped && !p.bufs[j].freed
  }

  lemma EndBuf(p: Page, w: Write, j: nat)
    requires WriteOk(w, |p.bufs|) && j < |p.bufs|
    ensures EndBufs(p, w)[j] ==
            if Zeroed(p, w, j) then
              p.bufs[j].(isNew := false, dirty := true, uptodate := p.bufs[j].uptodate || !p.uptodate)
            else p.bufs[j]
  {
    var from := w.pos % 4096;
    TouchesIsInRange(j, w.bs, from + Arrived(p, w), from + w.len);
  }

  lemma EndComes(p: Page, w: Write, j: nat)
    requires WriteOk(w, |p.bufs|) && j <= |p.bufs|
    ensures j <= StopAt(EndBufs(p, w), EndArgs(p, w), 0) <==> Comes(p, w, j)
  {
    hide InRange, Touches, Missed;
    StopMeans(EndBufs(p, w), EndArgs(p, w), j);
    assert forall i: nat :: i < |p.bufs| ==> Fails(EndBufs(p, w), w.dirty, i) == Fails(p.bufs, w.dirty, i);
  }

  /** write_end, block by block: handed to the journal, and uptodate, are exactly the mapped blocks of
      the part that arrived, up to the first error; new blocks of the part that did not arrive are no
      longer new and are dirty. */
  lemma WriteEndBlocks(p: Page, w: Write, j: nat)
    requires WriteOk(w, |p.bufs|) && p.handle && j < |p.bufs|
    ensures var q := WriteEnd(p, w).0;
            && |q.bufs| == |p.bufs|
            && (j in q.ledger.dirtied <==> j in p.ledger.dirtied || HandedOver(p, w, j))
            && (j in q.ledger.unguarded <==> j in p.ledger.unguarded || (HandedOver(p, w, j) && j !in p.ledger.granted))
            && q.bufs[j] == p.bufs[j].(
                 isNew := p.bufs[j].isNew && !Zeroed(p, w, j),
                 dirty := p.bufs[j].dirty || Zeroed(p, w, j),
                 uptodate := p.bufs[j].uptodate || (Zeroed(p, w, j) && !p.uptodate) || HandedOver(p, w, j))
  {
    hide InRange, Touches, EndBufs, WalkFrom;
    var a, bufs := EndArgs(p, w), EndBufs(p, w);
    var walk := Walk(bufs, p.ledger, 0, false);
    EndBuf(p, w, j);
    EndComes(p, w, j);
    TouchesIsInRange(j, a.bs, a.from, a.to);
    WalkBuffers(walk, a, 0);
    DirtyLedger(walk, a, 0);
  }

  /** write_end, the page: credits, size, result, and uptodate exactly unless the walk came past a block
      outside the part that arrived which is not. */
  lemma WriteEndPage(p: Page, w: Write) returns (err: int)
    requires WriteOk(w, |p.bufs|) && p.handle
    ensures var (q, ret) := WriteEnd(p, w);
            var from, end := w.pos % 4096, w.pos + Arrived(p, w);
            && q == p.(bufs := q.bufs, ledger := q.ledger, uptodate := q.uptodate, isize := q.isize,
                       handle := false, log := p.log + [Stopped])
            && q.ledger.granted == p.ledger.granted
            && q.ledger.credits + |q.ledger.dirtied| == p.ledger.credits + |p.ledger.dirtied|
            && q.isize == (if end > p.isize then end else p.isize)
            && IsFirstError(p.bufs, w.dirty, w.bs, from, from + Arrived(p, w), err)
            && ret == if err != 0 then err else if w.stopErr != 0 then w.stopErr else Arrived(p, w)
  {
    hide InRange, Touches, EndBufs, WalkFrom;
    var a, bufs := EndArgs(p, w), EndBufs(p, w);
    var walk := Walk(bufs, p.ledger, 0, false);
    DirtyLedger(walk, a, 0);
    WalkResult(walk, a);
    var from := w.pos % 4096;
    forall j: nat | j < |p.bufs| ensures Fails(bufs, w.dirty, j) == Fails(p.bufs, w.dirty, j) {
      EndBuf(p, w, j);
    }
    SameErrors(bufs, p.bufs, w.dirty, w.bs, from, from + Arrived(p, w), EndWalk(p, w).ret);
    err := EndWalk(p, w).ret;
  }

  lemma SameErrors(bufs: seq<Buf>, bufs': seq<Buf>, errs: seq<int>, bs: nat, lo: nat, hi: nat, ret: int)
    requires |errs| == |bufs| == |bufs'|
    requires forall j: nat :: j < |bufs| ==> Fails(bufs, errs, j) == Fails(bufs', errs, j)
    ensures IsFirstError(bufs, errs, bs, lo, hi, ret) <==> IsFirstError(bufs', errs, bs, lo, hi, ret)
  {
    hide Touches, Fails;
    assert forall j: nat :: Fails(bufs, errs, j) ==> j < |bufs| by { FailsInside(bufs, errs); }
    assert forall j: nat :: Fails(bufs', errs, j) ==> j < |bufs| by { FailsInside(bufs', errs); }
    assert forall j: nat :: Fails(bufs, errs, j) == Fails(bufs', errs, j);
    assert forall j: nat :: Unfailed(bufs, errs, bs, lo, hi, j) == Unfailed(bufs', errs, bs, lo, hi, j);
  }

  lemma FailsInside(bufs: seq<Buf>, errs: seq<int>)
    requires |errs| == |bufs|
    ensures forall j: nat :: Fails(bufs, errs, j) ==> j < |bufs|
  {
  }

  lemma WriteEndMarks(p: Page, w: Write)
    requires WriteOk(w, |p.bufs|) && p.handle
    ensures WriteEnd(p, w).0.uptodate <==>
            p.uptodate || forall j: nat :: j < |p.bufs| && Comes(p, w, j + 1) && !Written(p, w, j) ==>
              p.bufs[j].uptodate || Zeroed(p, w, j)
  {
    hide InRange, Touches, EndBufs, WalkFrom, Comes, Written, Zeroed;
    var a, bufs := EndArgs(p, w), EndBufs(p, w);
    WalkPartial(Walk(bufs, p.ledger, 0, false), a, 0);
    var k := StopAt(bufs, a, 0);
    forall j: nat | j < |p.bufs|
      ensures InRange(j, a.bs, a.from, a.to) <==> Written(p, w, j)
      ensures j < k <==> Comes(p, w, j + 1)
      ensures !p.uptodate ==> (bufs[j].uptodate <==> p.bufs[j].uptodate || Zeroed(p, w, j))
    {
      WrittenIsInRange(p, w, j);
      EndComes(p, w, j + 1);
      EndBuf(p, w, j);
    }
  }

  lemma WrittenIsInRange(p: Page, w: Write, j: nat)
    ensures var a := EndArgs(p, w); InRange(j, a.bs, a.from, a.to) <==> Written(p, w, j)
  {
    var a := EndArgs(p, w);
    TouchesIsInRange(j, a.bs, a.from, a.to);
  }

  // ---- writepage and write_begin ----

  /** No block below j is refused; the errors are those of one of the two passes. */
  predicate NoneRefused(e: Env, errs: seq<int>, j: nat)
    requires EnvOk(e) && |errs| == |e.begun|
  {
    forall i: nat :: i < j ==> !Fails(e.begun, errs, i)
  }

  /** The first error over the whole page, or 0. */
  ghost predicate IsPassResult(e: Env, errs: seq<int>, ret: int)
    requires EnvOk(e) && |errs| == |e.begun|
  {
    && (forall j: nat :: j < |e.begun| && Fails(e.begun, errs, j) && NoneRefused(e, errs, j) ==> ret == errs[j])
    && (ret == 0 <==> NoneRefused(e, errs, |e.begun|))
  }

  lemma WholePage(e: Env, errs: seq<int>, ret: int)
    requires EnvOk(e) && |errs| == |e.begun|
    ensures forall j: nat :: j <= |e.begun| ==> (Unfailed(e.begun, errs, e.bs, 0, 4096, j) <==> NoneRefused(e, errs, j))
    ensures IsFirstError(e.begun, errs, e.bs, 0, 4096, ret) ==> IsPassResult(e, errs, ret)
  {
    hide Touches, InRange;
    forall j: nat | j < |e.begun| ensures Touches(j, e.bs, 0, 4096) {
      FullPageInRange(|e.begun|, e.bs, j);
      TouchesIsInRange(j, e.bs, 0, 4096);
    }
  }

  /** The first pass, block by block: access to, and clean, are the mapped blocks before and up to the
      first refusal. */
  lemma AccessBlocks(e: Env, j: nat)
    requires EnvOk(e) && j < |e.begun|
    ensures var b, a := e.begun[j], AccessPass(e);
            && (j in a.l.granted <==> b.mapped && !b.freed && NoneRefused(e, e.access, j + 1))
            && a.bufs[j] == b.(dirty := b.dirty && !(b.mapped && !b.freed && NoneRefused(e, e.access, j)))
    ensures IsPassResult(e, e.access, AccessPass(e).ret)
  {
    hide InRange, WalkFrom, Touches;
    var args, w := FullPage(GetWriteAccess, e.bs, e.access), Walk(e.begun, FreshHandle(), 0, false);
    WalkResult(w, args);
    WholePage(e, e.access, AccessPass(e).ret);
    WalkBuffers(w, args, 0);
    AccessLedger(w, args, 0);
    StopMeans(e.begun, args, j);
    StopMeans(e.begun, args, j + 1);
    FullPageInRange(|e.begun|, e.bs, j);
  }

  /** The second pass: dirtied and uptodate are the mapped blocks up to the first refusal of this pass. */
  lemma DirtyBlocks(e: Env, j: nat)
    requires EnvOk(e) && j < |e.begun|
    ensures var b, a, d := e.begun[j], AccessPass(e), DirtyPass(e);
            var handed := b.mapped && !b.freed && NoneRefused(e, e.dirty, j);
            && (j in d.l.dirtied <==> handed) && (j in d.l.granted <==> j in a.l.granted)
            && (j in d.l.unguarded <==> handed && j !in a.l.granted)
            && d.bufs[j] == a.bufs[j].(uptodate := b.uptodate || handed)
    ensures IsPassResult(e, e.dirty, DirtyPass(e).ret)
  {
    hide InRange, WalkFrom, Touches, NoneRefused;
    AccessGrants(e);
    var a, args := AccessPass(e), FullPage(WriteEndFn, e.bs, e.dirty);
    var w := Walk(a.bufs, a.l, 0, false);
    WalkResult(w, args);
    SameFailures(e);
    SameErrors(a.bufs, e.begun, e.dirty, e.bs, 0, 4096, DirtyPass(e).ret);
    WholePage(e, e.dirty, DirtyPass(e).ret);
    WalkBuffers(w, args, 0);
    DirtyLedger(w, args, 0);
    StopMeans(a.bufs, args, j);
    FullPageInRange(|e.begun|, e.bs, j);
  }

  lemma SameFailures(e: Env)
    requires EnvOk(e)
    ensures forall j: nat :: Fails(AccessPass(e).bufs, e.dirty, j) == Fails(e.begun, e.dirty, j)
    ensures forall j: nat :: j <= |e.begun| ==>
              Unfailed(AccessPass(e).bufs, e.dirty, e.bs, 0, 4096, j) == Unfailed(e.begun, e.dirty, e.bs, 0, 4096, j)
  {
    hide WalkFrom, Touches;
    AccessGrants(e);
    assert forall j: nat :: Fails(AccessPass(e).bufs, e.dirty, j) == Fails(e.begun, e.dirty, j);
  }

  /** What writepage returns, and does to the page, on each of its paths. */
  lemma WritePageResult(p: Page, e: Env) returns (access: int, dirty: int)
    requires EnvOk(e)
    ensures IsPassResult(e, e.access, access) && IsPassResult(e, e.dirty, dirty)
    ensures var (q, ret) := WritePage(p, e);
            if p.hasBuffers && !p.checked then ret == e.fullErr && q == p.(log := p.log + [InPlace])
            else if p.handle || e.outer then ret == 0 && q == p
            else if e.aborted then ret == -30 && q == p
            else if e.startErr != 0 then ret == e.startErr && q == p
            else
              var ok := e.beginErr == 0 && access == 0 && dirty == 0;
              && ret == (if e.beginErr != 0 then 0
                         else if access != 0 then access
                         else if dirty != 0 then dirty
                         else e.stopErr)
              && q == p.(checked := false, hasBuffers := true, bufs := q.bufs, ledger := q.ledger,
                         log := p.log + if ok then [Started, Journalled, Stopped] else [Started, Stopped])
              && (if e.beginErr != 0 then q.bufs == e.begun && q.ledger == Ledger(4, {}, {}, {}, [])
                  else q.bufs == DirtyPass(e).bufs && q.ledger == DirtyPass(e).l)
  {
    hide AccessPass, DirtyPass;
    AccessBlocks(e, 0);
    DirtyBlocks(e, 0);
    access, dirty := AccessPass(e).ret, DirtyPass(e).ret;
  }

  /** ... and write_begin. */
  lemma WriteBeginResult(p: Page, e: Env) returns (access: int)
    requires EnvOk(e)
    ensures IsPassResult(e, e.access, access)
    ensures var (q, ret) := WriteBegin(p, e);
            if p.handle || e.outer then ret == 0 && q == p
            else if e.aborted then ret == -30 && q == p
            else if e.startErr != 0 then ret == e.startErr && q == p
            else if e.beginErr != 0 then
              ret == 0 && q == p.(hasBuffers := true, bufs := e.begun, ledger := Ledger(4, {}, {}, {}, []),
                                  log := p.log + [Began, Stopped])
            else
              ret == access && q == p.(hasBuffers := true, bufs := AccessPass(e).bufs, ledger := AccessPass(e).l,
                                       handle := true, log := p.log + [Began])
  {
    hide AccessPass;
    AccessBlocks(e, 0);
    access := AccessPass(e).ret;
  }

  /** When nothing fails: every mapped block of the page has access, is clean, uptodate and in the
      journal, none without access, and writepage returns what journal_stop returns. */
  lemma WritePageInFull(p: Page, e: Env, j: nat)
    requires EnvOk(e) && Starts(p, e) && (p.checked || !p.hasBuffers) && e.beginErr == 0 && j < |e.begun|
    requires NoneRefused(e, e.access, |e.begun|) && NoneRefused(e, e.dirty, |e.begun|)
    requires e.begun[j].mapped && !e.begun[j].freed
    ensures var (q, ret) := WritePage(p, e);
            && ret == e.stopErr && j in q.ledger.granted && j in q.ledger.dirtied && q.ledger.unguarded == {}
            && q.bufs[j] == e.begun[j].(dirty := false, uptodate := true)
  {
    hide AccessPass, DirtyPass;
    AccessBlocks(e, j);
    DirtyBlocks(e, j);
    WritePageGuards(e);
    var access, dirty := WritePageResult(p, e);
  }
}
