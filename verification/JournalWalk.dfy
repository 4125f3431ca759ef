/**
 walk_page_buffers of fs/journal/address_mapping.c and its two callbacks.

 A page's buffers form a ring; buffer i is followed by buffer (i + 1) mod n. The journal
 library is a ledger of one handle: its credits, the buffers it granted write access to, and
 the buffers dirtied under it. What the library returns for buffer i is `errs[i]`.
 */
module JournalWalk {

  /** `isNew` is buffer_new: the block was allocated by this write. */
  datatype Buf = Buf(mapped: bool, freed: bool, uptodate: bool, dirty: bool, isNew: bool)

  /** `unguarded` collects the buffers dirtied without write access, `calls` the buffers the
      current walk handed to its callback, in order. */
  datatype Ledger = Ledger(credits: int, granted: set<nat>, dirtied: set<nat>, unguarded: set<nat>, calls: seq<nat>)

  datatype Callback = GetWriteAccess | WriteEndFn

  datatype Walk = Walk(bufs: seq<Buf>, l: Ledger, ret: int, partial: bool)

  /** A buffer the callbacks do not skip. */
  predicate Journalable(b: Buf) {
    b.mapped && !b.freed
  }

  /** journal_get_write_access and journal_dirty_metadata: the first dirtying of a buffer costs a credit. */
  function Grant(l: Ledger, i: nat, err: int): Ledger {
    if err == 0 then l.(granted := l.granted + {i}) else l
  }

  function DirtyMetadata(l: Ledger, i: nat): (l': Ledger)
    ensures l'.credits + |l'.dirtied| == l.credits + |l.dirtied|
  {
    assert i in l.dirtied ==> l.dirtied + {i} == l.dirtied;
    l.(dirtied := l.dirtied + {i},
       credits := if i in l.dirtied then l.credits else l.credits - 1,
       unguarded := if i in l.granted then l.unguarded else l.unguarded + {i})
  }

  function CallBuf(fn: Callback, b: Buf): Buf {
    if !Journalable(b) then b
    else if fn.GetWriteAccess? then b.(dirty := false)
    else b.(uptodate := true)
  }

  function CallLedger(fn: Callback, b: Buf, l: Ledger, i: nat, err: int): (r: Ledger)
    ensures r.calls == l.calls + [i]
  {
    var l' := l.(calls := l.calls + [i]);
    if !Journalable(b) then l'
    else if fn.GetWriteAccess? then Grant(l', i, err)
    else DirtyMetadata(l', i)
  }

  function CallRet(b: Buf, err: int): int {
    if Journalable(b) then err else 0
  }

  predicate InRange(i: nat, bs: nat, from: nat, to: nat) {
    (i + 1) * bs > from && i * bs < to
  }

  datatype Args = Args(fn: Callback, bs: nat, from: nat, to: nat, track: bool, errs: seq<int>)

  predicate Ready(a: Args, n: nat) {
    n >= 1 && a.bs >= 1 && |a.errs| == n
  }

  // ---- the walk, stepwise, from buffer i on ----

  function WalkFrom(w: Walk, a: Args, i: nat): (w': Walk)
    requires Ready(a, |w.bufs|) && i <= |w.bufs|
    ensures |w'.bufs| == |w.bufs|
    decreases |w.bufs| - i
  {
    if i == |w.bufs| || w.ret != 0 then w
    else WalkFrom(WalkStep(w, a, i), a, i + 1)
  }

  function WalkStep(w: Walk, a: Args, i: nat): (w': Walk)
    requires Ready(a, |w.bufs|) && i < |w.bufs|
    ensures |w'.bufs| == |w.bufs|
  {
    var b := w.bufs[i];
    if !InRange(i, a.bs, a.from, a.to) then w.(partial := w.partial || (a.track && !b.uptodate))
    else Walk(w.bufs[i := CallBuf(a.fn, b)], CallLedger(a.fn, b, w.l, i, a.errs[i]), CallRet(b, a.errs[i]), w.partial)
  }

  // ---- the walk, described as a whole ----

  /** The first in-range buffer whose callback fails; n if there is none. */
  function StopAt(bufs: seq<Buf>, a: Args, i: nat): (k: nat)
    requires Ready(a, |bufs|) && i <= |bufs|
    ensures i <= k <= |bufs|
    ensures k < |bufs| ==> InRange(k, a.bs, a.from, a.to) && CallRet(bufs[k], a.errs[k]) != 0
    ensures forall j :: i <= j < k ==> InRange(j, a.bs, a.from, a.to) ==> CallRet(bufs[j], a.errs[j]) == 0
    decreases |bufs| - i
  {
    if i == |bufs| || (InRange(i, a.bs, a.from, a.to) && CallRet(bufs[i], a.errs[i]) != 0) then i
    else StopAt(bufs, a, i + 1)
  }

  /** The buffers the callback is called on. */
  function Called(n: nat, a: Args, i: nat, k: nat): seq<nat>
    requires i <= n
    decreases n - i
  {
    if i == n || i > k then []
    else if InRange(i, a.bs, a.from, a.to) then [i] + Called(n, a, i + 1, k)
    else Called(n, a, i + 1, k)
  }

  /** They are the in-range buffers up to and including `k`, in ring order, each once. */
  lemma {:induction false} CalledInOrder(n: nat, a: Args, i: nat, k: nat)
    requires i <= n
    ensures var c := Called(n, a, i, k);
            && (forall j: nat :: j in c <==> i <= j < n && Reached(a, j, k))
            && Increasing(c)
    decreases n - i
  {
    hide InRange;
    if i < n && i <= k {
      CalledInOrder(n, a, i + 1, k);
      var rest := Called(n, a, i + 1, k);
      var first := if InRange(i, a.bs, a.from, a.to) then [i] else [];
      assert Called(n, a, i, k) == first + rest;
      forall j: nat ensures j in first + rest <==> i <= j < n && Reached(a, j, k) {
        assert j in first + rest <==> j in first || j in rest;
        assert j in first <==> j == i && Reached(a, i, k);
      }
      assert forall x :: 0 <= x < |rest| ==> rest[x] in rest;
    }
  }

  predicate Increasing(c: seq<nat>) {
    forall x, y :: 0 <= x < y < |c| ==> c[x] < c[y]
  }

  predicate Reached(a: Args, j: nat, k: nat) {
    j <= k && InRange(j, a.bs, a.from, a.to)
  }

  /** The rest of the walk depends only on the buffers not yet visited. */
  lemma {:induction false} SameStop(bufs: seq<Buf>, bufs': seq<Buf>, a: Args, i: nat)
    requires Ready(a, |bufs|) && |bufs'| == |bufs| && i <= |bufs|
    requires forall j :: i <= j < |bufs| ==> bufs'[j] == bufs[j]
    ensures StopAt(bufs', a, i) == StopAt(bufs, a, i)
    decreases |bufs| - i
  {
    hide InRange;
    if i < |bufs| { SameStop(bufs, bufs', a, i + 1); }
  }

  /** Some buffer visited before the walk stops at `k` is out of range and not uptodate. */
  predicate SawStale(bufs: seq<Buf>, a: Args, i: nat, k: nat)
    requires k <= |bufs|
  {
    exists j :: i <= j < k && !InRange(j, a.bs, a.from, a.to) && !bufs[j].uptodate
  }

  /** The walk returns the first failure, or 0 if there is none. */
  lemma {:induction false} WalkReturns(w: Walk, a: Args, i: nat)
    requires Ready(a, |w.bufs|) && i <= |w.bufs| && w.ret == 0
    ensures var k := StopAt(w.bufs, a, i);
            WalkFrom(w, a, i).ret == if k < |w.bufs| then a.errs[k] else 0
    decreases |w.bufs| - i
  {
    hide InRange, CallLedger;
    if i < |w.bufs| {
      var w1 := WalkStep(w, a, i);
      if w1.ret == 0 {
        SameStop(w.bufs, w1.bufs, a, i + 1);
        WalkReturns(w1, a, i + 1);
      }
    }
  }

  /** It calls its callback in ring order on exactly the in-range buffers up to and including the
      first failure. */
  lemma {:induction false} WalkCalls(w: Walk, a: Args, i: nat)
    requires Ready(a, |w.bufs|) && i <= |w.bufs| && w.ret == 0
    ensures WalkFrom(w, a, i).l.calls == w.l.calls + Called(|w.bufs|, a, i, StopAt(w.bufs, a, i))
    decreases |w.bufs| - i
  {
    hide InRange, CallLedger, CallBuf, CallRet;
    if i < |w.bufs| {
      var w1, k := WalkStep(w, a, i), StopAt(w.bufs, a, i);
      var rest := Called(|w.bufs|, a, i + 1, k);
      if w1.ret == 0 {
        SameStop(w.bufs, w1.bufs, a, i + 1);
        WalkCalls(w1, a, i + 1);
        assert w.l.calls + [i] + rest == w.l.calls + ([i] + rest);
      } else {
        assert k == i && rest == [] && WalkFrom(w1, a, i + 1) == w1;
      }
    }
  }

  /** It changes exactly those buffers. */
  lemma {:induction false} WalkBuffers(w: Walk, a: Args, i: nat)
    requires Ready(a, |w.bufs|) && i <= |w.bufs| && w.ret == 0
    ensures var w', k := WalkFrom(w, a, i), StopAt(w.bufs, a, i);
            forall j :: 0 <= j < |w.bufs| ==>
              w'.bufs[j] == if j >= i && Reached(a, j, k) then CallBuf(a.fn, w.bufs[j]) else w.bufs[j]
    decreases |w.bufs| - i
  {
    hide InRange, CallLedger, CallBuf, CallRet;
    if i < |w.bufs| {
      var w1, k := WalkStep(w, a, i), StopAt(w.bufs, a, i);
      if w1.ret == 0 {
        SameStop(w.bufs, w1.bufs, a, i + 1);
        WalkBuffers(w1, a, i + 1);
      } else {
        assert k == i && WalkFrom(w1, a, i + 1) == w1;
      }
    }
  }

  /** It sets `partial` exactly if it visited an out-of-range buffer that is not uptodate. */
  lemma {:induction false} WalkPartial(w: Walk, a: Args, i: nat)
    requires Ready(a, |w.bufs|) && i <= |w.bufs| && w.ret == 0
    ensures WalkFrom(w, a, i).partial <==> w.partial || (a.track && SawStale(w.bufs, a, i, StopAt(w.bufs, a, i)))
    decreases |w.bufs| - i
  {
    hide InRange, CallLedger, CallBuf, CallRet;
    if i < |w.bufs| {
      var w1, k := WalkStep(w, a, i), StopAt(w.bufs, a, i);
      if w1.ret == 0 {
        SameStop(w.bufs, w1.bufs, a, i + 1);
        WalkPartial(w1, a, i + 1);
        assert SawStale(w.bufs, a, i, k) <==>
               (!InRange(i, a.bs, a.from, a.to) && !w.bufs[i].uptodate) || SawStale(w1.bufs, a, i + 1, k);
      } else {
        assert k == i && WalkFrom(w1, a, i + 1) == w1;
      }
    }
  }

  /** What a walk with write access does to the ledger. */
  lemma {:induction false} AccessLedger(w: Walk, a: Args, i: nat)
    requires Ready(a, |w.bufs|) && i <= |w.bufs| && w.ret == 0 && a.fn.GetWriteAccess?
    ensures var w', k := WalkFrom(w, a, i), StopAt(w.bufs, a, i);
            && w'.l.credits == w.l.credits && w'.l.dirtied == w.l.dirtied && w'.l.unguarded == w.l.unguarded
            && forall j :: j in w'.l.granted <==>
                 j in w.l.granted || (i <= j < |w.bufs| && j < k && Reached(a, j, k) && Journalable(w.bufs[j]))
    decreases |w.bufs| - i
  {
    hide InRange;
    if i < |w.bufs| {
      var w1 := WalkStep(w, a, i);
      if w1.ret == 0 {
        SameStop(w.bufs, w1.bufs, a, i + 1);
        AccessLedger(w1, a, i + 1);
      }
    }
  }

  /** What a walk with write_end_fn does to the ledger: every dirtied buffer is paid for by at most
      one credit, and is unguarded exactly if write access had not been granted. */
  lemma {:induction false} DirtyLedger(w: Walk, a: Args, i: nat)
    requires Ready(a, |w.bufs|) && i <= |w.bufs| && w.ret == 0 && a.fn.WriteEndFn?
    ensures var w', k := WalkFrom(w, a, i), StopAt(w.bufs, a, i);
            && w'.l.granted == w.l.granted
            && w'.l.credits + |w'.l.dirtied| == w.l.credits + |w.l.dirtied|
            && (forall j :: j in w'.l.dirtied <==> j in w.l.dirtied || Dirties(w.bufs, a, i, j, k))
            && (forall j :: j in w'.l.unguarded <==>
                  j in w.l.unguarded || (Dirties(w.bufs, a, i, j, k) && j !in w.l.granted))
    decreases |w.bufs| - i
  {
    hide InRange, CallBuf;
    if i < |w.bufs| {
      var w1, k := WalkStep(w, a, i), StopAt(w.bufs, a, i);
      if w1.ret == 0 {
        SameStop(w.bufs, w1.bufs, a, i + 1);
        DirtyLedger(w1, a, i + 1);
        assert forall j :: Dirties(w.bufs, a, i, j, k) <==>
                 (j == i && Reached(a, i, k) && Journalable(w.bufs[i])) || Dirties(w1.bufs, a, i + 1, j, k);
      } else {
        assert k == i && WalkFrom(w1, a, i + 1) == w1;
        assert forall j :: Dirties(w.bufs, a, i, j, k) <==> j == i;
      }
    }
  }

  predicate Dirties(bufs: seq<Buf>, a: Args, i: nat, j: nat, k: nat) {
    i <= j < |bufs| && Reached(a, j, k) && Journalable(bufs[j])
  }
}
