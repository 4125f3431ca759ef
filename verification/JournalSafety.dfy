/**
 What the journalled page operations guarantee, and exactly where they stop guaranteeing it.
 */
module JournalSafety {
  import opened JournalWalk
  import opened JournalPage

  // ---- write access before dirtying, within the credits ----

  lemma FullPageInRange(n: nat, bs: nat, j: nat)
    requires Geometry(n, bs) && j < n
    ensures InRange(j, bs, 0, PAGE_CACHE_SIZE)
  {
    assert (j + 1) * bs >= 1;
    assert j * bs < n * bs;
  }

  /** Where the two passes of writepage stop: at the first buffer the library fails on. */
  function AccessStop(e: Env): nat
    requires EnvOk(e)
  {
    StopAt(e.begun, FullPage(GetWriteAccess, e.bs, e.access), 0)
  }

  function DirtyStop(e: Env): nat
    requires EnvOk(e)
  {
    StopAt(AccessPass(e).bufs, FullPage(WriteEndFn, e.bs, e.dirty), 0)
  }

  /** After the access pass exactly the journalable buffers before its stop are granted; it leaves
      those it was called on clean and never touches `mapped`, `freed` or `uptodate`. */
  lemma AccessGrants(e: Env)
    requires EnvOk(e)
    ensures var a, k := AccessPass(e), AccessStop(e);
            && (a.ret == 0 <==> k == |e.begun|)
            && (k < |e.begun| ==> Journalable(e.begun[k]))
            && (forall j: nat :: j in a.l.granted <==> j < |e.begun| && j < k && Journalable(e.begun[j]))
            && a.l.unguarded == {} && a.l.dirtied == {} && a.l.credits == CREDITS
            && (forall j :: 0 <= j < |e.begun| ==>
                  && a.bufs[j] == e.begun[j].(dirty := a.bufs[j].dirty)
                  && (j <= k && Journalable(e.begun[j]) ==> !a.bufs[j].dirty))
  {
    var args := FullPage(GetWriteAccess, e.bs, e.access);
    var w := Walk(e.begun, FreshHandle(), 0, false);
    WalkReturns(w, args, 0);
    WalkBuffers(w, args, 0);
    AccessLedger(w, args, 0);
    forall j | 0 <= j < |e.begun| ensures InRange(j, e.bs, 0, PAGE_CACHE_SIZE) {
      FullPageInRange(|e.begun|, e.bs, j);
    }
  }

  /** writepage dirties a buffer it was not granted access to exactly if its access pass fails at
      some buffer and its second pass, which it makes all the same, gets as far as that buffer. */
  lemma WritePageGuards(e: Env)
    requires EnvOk(e)
    ensures DirtyPass(e).l.unguarded == {} <==> AccessPass(e).ret == 0 || DirtyStop(e) < AccessStop(e)
  {
    var a, kA, kD := AccessPass(e), AccessStop(e), DirtyStop(e);
    var args := FullPage(WriteEndFn, e.bs, e.dirty);
    AccessGrants(e);
    DirtyLedger(Walk(a.bufs, a.l, 0, false), args, 0);
    if kA < |e.begun| {
      FullPageInRange(|e.begun|, e.bs, kA);
      assert Dirties(a.bufs, args, 0, kA, kD) <==> kA <= kD;
      assert kA in DirtyPass(e).l.unguarded <==> kA <= kD;
    }
  }

  lemma BlocksPerPage(n: nat, bs: nat)
    requires Geometry(n, bs)
    ensures bs >= 1024 ==> n <= 4
  {
    if bs >= 1024 {
      assert n * 1024 <= n * bs;
    }
  }

  lemma Below(s: set<nat>, n: nat)
    requires forall j :: j in s ==> j < n
    ensures |s| <= n
  {
    if n == 0 {
      assert s == {};
    } else {
      Below(s - {n - 1}, n - 1);
    }
  }

  /** The dirty pass spends one credit a buffer; with blocks of 1024 bytes or more the four credits suffice. */
  lemma WritePageCredits(e: Env)
    requires EnvOk(e)
    ensures var d := DirtyPass(e);
            && d.l.credits == CREDITS - |d.l.dirtied|
            && |d.l.dirtied| <= |e.begun|
            && (e.bs >= 1024 ==> d.l.credits >= 0)
  {
    var a := AccessPass(e);
    AccessGrants(e);
    DirtyLedger(Walk(a.bufs, a.l, 0, false), FullPage(WriteEndFn, e.bs, e.dirty), 0);
    Below(DirtyPass(e).l.dirtied, |e.begun|);
    BlocksPerPage(|e.begun|, e.bs);
  }

  /** Where the library refuses, or fails, a callback. */
  predicate RefusesAccess(e: Env)
    requires EnvOk(e)
  {
    exists j: nat :: j < |e.begun| && Journalable(e.begun[j]) && e.access[j] != 0
  }

  predicate Refuses(e: Env)
    requires EnvOk(e)
  {
    exists j: nat :: j < |e.begun| && Journalable(e.begun[j]) && (e.access[j] != 0 || e.dirty[j] != 0)
  }

  lemma WhenAccessFails(e: Env)
    requires EnvOk(e)
    ensures AccessPass(e).ret != 0 <==> RefusesAccess(e)
  {
    hide InRange;
    var args, k := FullPage(GetWriteAccess, e.bs, e.access), AccessStop(e);
    WalkReturns(Walk(e.begun, FreshHandle(), 0, false), args, 0);
    forall j: nat | j < |e.begun| ensures InRange(j, e.bs, 0, PAGE_CACHE_SIZE) {
      FullPageInRange(|e.begun|, e.bs, j);
    }
    if k < |e.begun| {
      assert Journalable(e.begun[k]) && e.access[k] != 0;
    } else {
      assert forall j: nat :: j < |e.begun| ==> CallRet(e.begun[j], e.access[j]) == 0;
    }
  }

  /** Either pass of a writepage fails exactly if the library refuses it some journalable buffer. */
  lemma WhenAPassFails(e: Env)
    requires EnvOk(e)
    ensures AccessPass(e).ret != 0 || DirtyPass(e).ret != 0 <==> Refuses(e)
  {
    hide InRange;
    WhenAccessFails(e);
    AccessGrants(e);
    var a, args, k := AccessPass(e), FullPage(WriteEndFn, e.bs, e.dirty), DirtyStop(e);
    WalkReturns(Walk(a.bufs, a.l, 0, false), args, 0);
    forall j: nat | j < |e.begun|
      ensures InRange(j, e.bs, 0, PAGE_CACHE_SIZE) && (Journalable(a.bufs[j]) <==> Journalable(e.begun[j]))
    {
      FullPageInRange(|e.begun|, e.bs, j);
    }
    if k < |e.begun| {
      assert Journalable(e.begun[k]) && e.dirty[k] != 0;
    } else {
      assert forall j: nat :: j < |e.begun| ==> CallRet(a.bufs[j], e.dirty[j]) == 0;
    }
  }

  /** Refuse access to the page's only buffer, then accept it as dirty: writepage has dirtied a buffer
      it has no access to. */
  lemma WritePageDirtiesUngranted(p: Page) returns (e: Env)
    requires !p.handle && (p.checked || !p.hasBuffers)
    ensures EnvOk(e) && Starts(p, e) && e.beginErr == 0
    ensures WritePage(p, e).0.ledger.unguarded != {}
  {
    e := Env(PAGE_CACHE_SIZE, false, false, 0, 0, [Buf(true, false, true, true, false)], [-5], [0], 0, 0);
    AccessGrants(e);
    WhenAccessFails(e);
    assert Journalable(e.begun[0]);
    assert AccessStop(e) == 0;
    WritePageGuards(e);
  }

  /** A write_begin that returned 0 with a fresh handle, then a write_end on any sub-range of the
      page: every buffer dirtied had been granted access, and the credits suffice. It had been left
      clean, and is so still exactly unless page_zero_new_buffers dirtied it behind the journal's back:
      the block is new and the copy fell short in it. */
  lemma WriteEndGuards(p: Page, e: Env, w: Write)
    requires EnvOk(e) && Starts(p, e) && e.beginErr == 0 && WriteBegin(p, e).1 == 0
    requires WriteOk(w, |e.begun|)
    ensures var p1, p2 := WriteBegin(p, e).0, WriteEnd(WriteBegin(p, e).0, w).0;
            && p2.ledger.unguarded == {}
            && (forall j :: j in p2.ledger.dirtied ==>
                  && j < |p1.bufs| && InRange(j, w.bs, EndArgs(p1, w).from, EndArgs(p1, w).to)
                  && !p1.bufs[j].dirty && (EndBufs(p1, w)[j].dirty <==> p1.bufs[j].isNew && Missed(p1, w, j)))
            && p2.ledger.credits == CREDITS - |p2.ledger.dirtied|
            && (w.bs >= 1024 ==> p2.ledger.credits >= 0)
  {
    var p1 := WriteBegin(p, e).0;
    AccessGrants(e);
    var args := EndArgs(p1, w);
    var bufs := EndBufs(p1, w);
    DirtyLedger(Walk(bufs, p1.ledger, 0, false), args, 0);
    var dirtied := EndWalk(p1, w).l.dirtied;
    assert forall j :: j in dirtied ==> Dirties(bufs, args, 0, j, StopAt(bufs, args, 0));
    Below(dirtied, |p1.bufs|);
    BlocksPerPage(|e.begun|, w.bs);
  }

  // ---- when write_end marks the page uptodate ----

  predicate AllUptodate(bufs: seq<Buf>) {
    forall j :: 0 <= j < |bufs| ==> bufs[j].uptodate
  }

  /** write_end sets the page uptodate only if every buffer is, exactly when it visited a stale
      buffer outside the range (and so does not set it), or every buffer was uptodate or was
      reached, mapped and not freed. */
  lemma WriteEndUptodate(p: Page, w: Write)
    requires WriteOk(w, |p.bufs|)
    ensures var r, a, bufs := EndWalk(p, w), EndArgs(p, w), EndBufs(p, w);
            var k := StopAt(bufs, a, 0);
            (!r.partial ==> AllUptodate(r.bufs)) <==>
              || SawStale(bufs, a, 0, k)
              || (forall j :: 0 <= j < |bufs| ==> bufs[j].uptodate || (Reached(a, j, k) && Journalable(bufs[j])))
  {
    hide InRange, EndBufs;
    var a, bufs := EndArgs(p, w), EndBufs(p, w);
    var walk := Walk(bufs, p.ledger, 0, false);
    WalkBuffers(walk, a, 0);
    WalkPartial(walk, a, 0);
    var r, k := EndWalk(p, w), StopAt(bufs, a, 0);
    assert forall j :: 0 <= j < |bufs| ==>
             (r.bufs[j].uptodate <==> bufs[j].uptodate || (Reached(a, j, k) && Journalable(bufs[j])));
  }

  /** In particular whenever the walk returns 0 and every in-range buffer is mapped and not freed. */
  lemma WriteEndUptodateOnSuccess(p: Page, w: Write)
    requires WriteOk(w, |p.bufs|) && p.handle && !p.uptodate && EndWalk(p, w).ret == 0
    requires var a := EndArgs(p, w);
             forall j :: 0 <= j < |p.bufs| && InRange(j, a.bs, a.from, a.to) ==> Journalable(p.bufs[j])
    ensures WriteEnd(p, w).0.uptodate <==> AllUptodate(WriteEnd(p, w).0.bufs)
  {
    hide InRange, Missed;
    var a, bufs := EndArgs(p, w), EndBufs(p, w);
    var walk := Walk(bufs, p.ledger, 0, false);
    var k := StopAt(bufs, a, 0);
    WalkReturns(walk, a, 0);
    WalkBuffers(walk, a, 0);
    WalkPartial(walk, a, 0);
    assert k == |bufs|;
    var r := EndWalk(p, w);
    assert forall j: nat :: j < |bufs| ==> Journalable(bufs[j]) == Journalable(p.bufs[j]);
    assert forall j :: 0 <= j < |bufs| ==>
             (r.bufs[j].uptodate <==> bufs[j].uptodate || InRange(j, a.bs, a.from, a.to));
  }

  lemma FirstHalf()
    ensures InRange(0, 2048, 0, 1024) && !InRange(1, 2048, 0, 1024)
  {
  }

  /** The walk stops at its first error: a write into the first of two blocks of any page, granted by
      write_begin, marks the page uptodate although its second block is stale. */
  lemma EarlyStopHidesAStaleBuffer(p: Page) returns (e: Env, w: Write)
    requires !p.handle
    ensures EnvOk(e) && Starts(p, e) && e.beginErr == 0 && WriteBegin(p, e).1 == 0 && WriteOk(w, |e.begun|)
    ensures var q := WriteEnd(WriteBegin(p, e).0, w).0; q.uptodate && !AllUptodate(q.bufs)
  {
    var stale := Buf(true, false, false, false, false);
    e := Env(2048, false, false, 0, 0, [stale, stale], [0, 0], [0, 0], 0, 0);
    w := Write(0, 1024, 1024, 2048, [-5, 0], 0);
    AccessGrants(e);
    WhenAccessFails(e);
    var p1 := WriteBegin(p, e).0;
    hide InRange, AccessPass;
    var bufs, a := EndBufs(p1, w), EndArgs(p1, w);
    assert !bufs[1].uptodate && Journalable(bufs[0]);
    FirstHalf();
    assert StopAt(bufs, a, 0) == 0;
    WalkBuffers(Walk(bufs, p1.ledger, 0, false), a, 0);
    WalkPartial(Walk(bufs, p1.ledger, 0, false), a, 0);
    assert !EndWalk(p1, w).bufs[1].uptodate;
  }

  // ---- what a short copy does behind the journal's back ----

  /** write_end leaves a clean buffer dirty exactly if its block is new and the copy fell short in it;
      of these, the ones that got no byte at all are not handed to the journal. */
  lemma ShortCopyDirties(p: Page, w: Write)
    requires WriteOk(w, |p.bufs|) && p.handle
    ensures var q := WriteEnd(p, w).0;
            && (forall j: nat :: j < |p.bufs| ==>
                  (q.bufs[j].dirty <==> p.bufs[j].dirty || (p.bufs[j].isNew && Missed(p, w, j))))
            && (forall j: nat :: j in q.ledger.dirtied && j !in p.ledger.dirtied ==>
                  j * w.bs < w.pos % PAGE_CACHE_SIZE + if w.copied < w.len then Copied(p, w) else w.len)
  {
    hide EndBufs;
    var a, bufs := EndArgs(p, w), EndBufs(p, w);
    WalkBuffers(Walk(bufs, p.ledger, 0, false), a, 0);
    DirtyLedger(Walk(bufs, p.ledger, 0, false), a, 0);
  }

  predicate NoPositive(errs: seq<int>) {
    forall i :: 0 <= i < |errs| ==> errs[i] <= 0
  }

  /** A successful write_end makes the file reach to the end of what it reports as written and no
      further; a failing one, whether the walk or journal_stop failed, may have extended it all the same. */
  lemma WriteEndSize(p: Page, w: Write)
    requires WriteOk(w, |p.bufs|) && p.handle && NoPositive(w.dirty) && w.stopErr <= 0
    ensures var (q, ret) := WriteEnd(p, w);
            && (ret >= 0 <==> StopAt(EndBufs(p, w), EndArgs(p, w), 0) == |p.bufs| && w.stopErr == 0)
            && (ret >= 0 ==> ret <= w.copied && q.isize == if w.pos + ret > p.isize then w.pos + ret else p.isize)
            && p.isize <= q.isize
            && (q.isize > p.isize <==> w.pos + Copied(p, w) > p.isize)
  {
    hide InRange, WalkFrom, EndBufs;
    WalkReturns(Walk(EndBufs(p, w), p.ledger, 0, false), EndArgs(p, w), 0);
  }

  // ---- a write of which nothing arrived ----

  lemma EmptyRange(j: nat, bs: nat, from: nat)
    requires bs >= 1
    ensures InRange(j, bs, from, from) <==> from % bs != 0 && j == from / bs
  {
    var q, r := from / bs, from % bs;
    assert from == q * bs + r;
    if j < q {
      assert (j + 1) * bs <= q * bs;
    } else if j > q {
      assert j * bs >= (q + 1) * bs;
    } else {
      assert (j + 1) * bs == j * bs + bs;
    }
  }

  /** Over an empty range a walk that stops at `k` calls its callback on one buffer at most. */
  lemma CalledOnEmptyRange(n: nat, a: Args, k: nat)
    requires a.bs >= 1 && a.to == a.from && a.from / a.bs < n && k <= n
    requires k < n ==> InRange(k, a.bs, a.from, a.to)
    ensures Called(n, a, 0, k) == if a.from % a.bs == 0 then [] else [a.from / a.bs]
  {
    hide InRange;
    var c, hit := Called(n, a, 0, k), a.from / a.bs;
    CalledInOrder(n, a, 0, k);
    EmptyRange(k, a.bs, a.from);
    EmptyRange(hit, a.bs, a.from);
    forall j: nat ensures j in c <==> a.from % a.bs != 0 && j == hit {
      EmptyRange(j, a.bs, a.from);
    }
    AtMostOne(c, a.from % a.bs != 0, hit);
  }

  lemma AtMostOne(c: seq<nat>, some: bool, hit: nat)
    requires forall j: nat :: j in c <==> some && j == hit
    requires Increasing(c)
    ensures c == if some then [hit] else []
  {
    assert |c| >= 2 ==> c[0] < c[1];
    assert forall x :: 0 <= x < |c| ==> c[x] in c;
    assert |c| == 1 ==> c == [c[0]];
    assert some ==> hit in c;
  }

  /** A write of which nothing counts as copied still hands a block to write_end_fn: the one `pos`
      lies in, exactly if it does not start there. Unless unmapped or freed, that block becomes
      uptodate and is dirtied in the journal; nothing else does. */
  lemma EmptyWriteTouches(p: Page, w: Write)
    requires WriteOk(w, |p.bufs|) && w.copied < w.len && Copied(p, w) == 0
    ensures var from, bufs, r := w.pos % PAGE_CACHE_SIZE, EndBufs(p, w), EndWalk(p, w);
            var hit := from / w.bs;
            && hit < |p.bufs|
            && r.l.calls == p.ledger.calls + (if from % w.bs == 0 then [] else [hit])
            && (if from % w.bs != 0 && Journalable(p.bufs[hit]) then
                  r.bufs == bufs[hit := bufs[hit].(uptodate := true)] && r.l.dirtied == p.ledger.dirtied + {hit}
                else r.bufs == bufs && r.l.dirtied == p.ledger.dirtied)
  {
    hide InRange, Called, WalkFrom, EndBufs;
    var a, bufs := EndArgs(p, w), EndBufs(p, w);
    var walk, k := Walk(bufs, p.ledger, 0, false), StopAt(bufs, a, 0);
    WalkCalls(walk, a, 0);
    BlockInPage(a.from, w.bs, |p.bufs|);
    CalledOnEmptyRange(|p.bufs|, a, k);
    ReachedInEmptyRange(|p.bufs|, a, k);
    WalkBuffers(walk, a, 0);
    DirtyLedger(walk, a, 0);
  }

  lemma ReachedInEmptyRange(n: nat, a: Args, k: nat)
    requires a.bs >= 1 && a.to == a.from && a.from / a.bs < n && k <= n
    requires k < n ==> InRange(k, a.bs, a.from, a.to)
    ensures forall j: nat :: j < n ==> (Reached(a, j, k) <==> a.from % a.bs != 0 && j == a.from / a.bs)
  {
    hide InRange;
    EmptyRange(k, a.bs, a.from);
    forall j: nat | j < n ensures Reached(a, j, k) <==> a.from % a.bs != 0 && j == a.from / a.bs {
      EmptyRange(j, a.bs, a.from);
    }
  }

  lemma BlockInPage(from: nat, bs: nat, n: nat)
    requires Geometry(n, bs) && from < PAGE_CACHE_SIZE
    ensures from / bs < n
  {
    MultipleGrows(n, from / bs, bs);
  }

  lemma MultipleGrows(a: nat, b: nat, bs: nat)
    ensures a <= b ==> a * bs <= b * bs
  {
  }
}
