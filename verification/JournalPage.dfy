/**
 The journalled page operations of fs/journal/address_mapping.c, over the walk of JournalWalk.

 What the VFS and the journal library decide is an `Env`. `log` is a history of the events the
 promises are about.
 */
module JournalPage {
  import opened JournalWalk

  const PAGE_CACHE_SIZE: nat := 4096
  const CREDITS: int := 4
  const EROFS: int := 30

  /** Dirtied: set_page_dirty. Started, Began: a handle, by writepage or write_begin. Stopped: a handle.
      Journalled: both passes of writepage succeeded. InPlace: block_write_full_page. */
  datatype Event = Dirtied | Started | Began | Journalled | Stopped | InPlace

  /** `handle`: the task has a handle open that one of these operations started; `ledger` is its ledger. */
  datatype Page = Page(bufs: seq<Buf>, ledger: Ledger, checked: bool, hasBuffers: bool, uptodate: bool,
                       isize: nat, handle: bool, log: seq<Event>)

  /** `outer`: other code of the task has a handle open around this call. `begun` is what
      __block_write_begin leaves as the page's buffers. */
  datatype Env = Env(bs: nat, outer: bool, aborted: bool, startErr: int, beginErr: int, begun: seq<Buf>,
                     access: seq<int>, dirty: seq<int>, stopErr: int, fullErr: int)

  predicate Geometry(n: nat, bs: nat) {
    n >= 1 && bs >= 1 && n * bs == PAGE_CACHE_SIZE
  }

  predicate EnvOk(e: Env) {
    Geometry(|e.begun|, e.bs) && |e.access| == |e.begun| && |e.dirty| == |e.begun|
  }

  function FreshHandle(): Ledger {
    Ledger(CREDITS, {}, {}, {}, [])
  }

  function FullPage(fn: Callback, bs: nat, errs: seq<int>): Args {
    Args(fn, bs, 0, PAGE_CACHE_SIZE, false, errs)
  }

  function FirstNonZero(a: int, b: int): int {
    if a != 0 then a else b
  }

  /** The access pass over the whole page. */
  function AccessPass(e: Env): Walk
    requires EnvOk(e)
  {
    WalkFrom(Walk(e.begun, FreshHandle(), 0, false), FullPage(GetWriteAccess, e.bs, e.access), 0)
  }

  /** writepage's second pass, made whatever the first returned. */
  function DirtyPass(e: Env): Walk
    requires EnvOk(e)
  {
    var w := AccessPass(e);
    WalkFrom(Walk(w.bufs, w.l, 0, false), FullPage(WriteEndFn, e.bs, e.dirty), 0)
  }

  /** Whether a journalled operation gets as far as a fresh handle, and what it returns if not. */
  predicate Starts(p: Page, e: Env) {
    !HasHandle(p, e) && !e.aborted && e.startErr == 0
  }

  /** journal_current_handle() is not NULL. */
  predicate HasHandle(p: Page, e: Env) {
    p.handle || e.outer
  }

  function NoHandleRet(p: Page, e: Env): int {
    if HasHandle(p, e) then 0 else if e.aborted then -EROFS else e.startErr
  }

  // ---- writepage, write_begin, write_end, set_page_dirty as functions ----

  function WritePage(p: Page, e: Env): (Page, int)
    requires EnvOk(e)
  {
    if p.hasBuffers && !p.checked then (p.(log := p.log + [InPlace]), e.fullErr)
    else if !Starts(p, e) then (p, NoHandleRet(p, e))
    else
      var p1 := p.(checked := false, hasBuffers := true, bufs := e.begun, ledger := FreshHandle());
      if e.beginErr != 0 then (p1.(log := p.log + [Started, Stopped]), 0)
      else
        var a, d := AccessPass(e), DirtyPass(e);
        var ret := FirstNonZero(a.ret, d.ret);
        (p1.(bufs := d.bufs, ledger := d.l,
             log := p.log + if ret == 0 then [Started, Journalled, Stopped] else [Started, Stopped]),
         FirstNonZero(ret, e.stopErr))
  }

  function WriteBegin(p: Page, e: Env): (Page, int)
    requires EnvOk(e)
  {
    if !Starts(p, e) then (p, NoHandleRet(p, e))
    else
      var p1 := p.(hasBuffers := true, bufs := e.begun, ledger := FreshHandle());
      if e.beginErr != 0 then (p1.(log := p.log + [Began, Stopped]), 0)
      else
        var a := AccessPass(e);
        (p1.(bufs := a.bufs, ledger := a.l, handle := true, log := p.log + [Began]), a.ret)
  }

  /** One write of `len` bytes at `pos` of which `copied` arrived. */
  datatype Write = Write(pos: nat, len: nat, copied: nat, bs: nat, dirty: seq<int>, stopErr: int)

  predicate WriteOk(w: Write, n: nat) {
    && Geometry(n, w.bs) && |w.dirty| == n
    && w.copied <= w.len && w.pos % PAGE_CACHE_SIZE + w.len <= PAGE_CACHE_SIZE
  }

  /** What counts as copied: nothing, if a short copy hit a page that is not uptodate. */
  function Copied(p: Page, w: Write): nat {
    if w.copied < w.len && !p.uptodate then 0 else w.copied
  }

  /** page_zero_new_buffers on one buffer. */
  function ZeroNewBuf(b: Buf, hit: bool, pageUptodate: bool): Buf {
    if b.isNew && hit then b.(isNew := false, dirty := true, uptodate := b.uptodate || !pageUptodate) else b
  }

  function ZeroNew(bufs: seq<Buf>, bs: nat, from: nat, to: nat, pageUptodate: bool): (r: seq<Buf>)
    ensures |r| == |bufs|
  {
    seq(|bufs|, i requires 0 <= i < |bufs| => ZeroNewBuf(bufs[i], InRange(i, bs, from, to), pageUptodate))
  }

  /** The part of the range that did not arrive; empty unless the copy was short. */
  predicate Missed(p: Page, w: Write, i: nat) {
    var from := w.pos % PAGE_CACHE_SIZE;
    w.copied < w.len && InRange(i, w.bs, from + Copied(p, w), from + w.len)
  }

  /** The buffers as write_end's walk finds them. */
  function EndBufs(p: Page, w: Write): (r: seq<Buf>)
    ensures |r| == |p.bufs|
    ensures forall i: nat :: i < |p.bufs| ==> r[i] == ZeroNewBuf(p.bufs[i], Missed(p, w, i), p.uptodate)
  {
    var from := w.pos % PAGE_CACHE_SIZE;
    if w.copied < w.len then ZeroNew(p.bufs, w.bs, from + Copied(p, w), from + w.len, p.uptodate) else p.bufs
  }

  function EndArgs(p: Page, w: Write): Args {
    var from := w.pos % PAGE_CACHE_SIZE;
    Args(WriteEndFn, w.bs, from, from + (if w.copied < w.len then Copied(p, w) else w.len), true, w.dirty)
  }

  function EndWalk(p: Page, w: Write): Walk
    requires WriteOk(w, |p.bufs|)
  {
    WalkFrom(Walk(EndBufs(p, w), p.ledger, 0, false), EndArgs(p, w), 0)
  }

  /** It stops the current handle, so there must be one. */
  function WriteEnd(p: Page, w: Write): (Page, int)
    requires WriteOk(w, |p.bufs|) && p.handle
  {
    var r, copied := EndWalk(p, w), Copied(p, w);
    var ret := FirstNonZero(r.ret, w.stopErr);
    (p.(bufs := r.bufs, ledger := r.l, uptodate := p.uptodate || !r.partial,
        isize := if w.pos + copied > p.isize then w.pos + copied else p.isize,
        handle := false, log := p.log + [Stopped]),
     if ret != 0 then ret else copied)
  }

  function SetPageDirty(p: Page): Page {
    p.(checked := true, log := p.log + [Dirtied])
  }

  lemma NextBlock(i: nat, bs: nat)
    ensures (i + 1) * bs == i * bs + bs && (bs >= 1 && i >= 1 ==> i * bs >= 1)
  {
  }

  lemma InRangeMeans(i: nat, bs: nat, from: nat, to: nat)
    ensures InRange(i, bs, from, to) <==> (i + 1) * bs > from && i * bs < to
  {
  }

  // ---- the same operations, in place ----

  class JournalledPage {
    var bufs: seq<Buf>
    var ledger: Ledger
    var checked: bool
    var hasBuffers: bool
    var uptodate: bool
    var isize: nat
    var handle: bool
    ghost var log: seq<Event>

    ghost function View(): Page
      reads this
    {
      Page(bufs, ledger, checked, hasBuffers, uptodate, isize, handle, log)
    }

    constructor (bufs: seq<Buf>, hasBuffers: bool, isize: nat)
      ensures View() == Page(bufs, FreshHandle(), false, hasBuffers, false, isize, false, [])
    {
      this.bufs, this.ledger, this.hasBuffers, this.isize := bufs, FreshHandle(), hasBuffers, isize;
      checked, uptodate, handle, log := false, false, false, [];
    }

    /** The callback on buffer `i`. */
    method Call(fn: Callback, i: nat, err: int) returns (ret: int)
      requires i < |bufs|
      modifies this`bufs, this`ledger
      ensures bufs == old(bufs)[i := CallBuf(fn, old(bufs)[i])]
      ensures ledger == CallLedger(fn, old(bufs)[i], old(ledger), i, err)
      ensures ret == CallRet(old(bufs)[i], err)
    {
      var b := bufs[i];
      ledger := ledger.(calls := ledger.calls + [i]);
      if !b.mapped || b.freed {
        assert bufs[i := b] == bufs;
        return 0;
      }
      match fn {
        case GetWriteAccess =>
          if b.dirty {
            bufs := bufs[i := b.(dirty := false)];
          }
          assert bufs == old(bufs)[i := b.(dirty := false)];
          ledger := Grant(ledger, i, err);
        case WriteEndFn =>
          bufs := bufs[i := b.(uptodate := true)];
          ledger := DirtyMetadata(ledger, i);
      }
      ret := err;
    }

    /** The loop body on buffer `bh`, which starts at `blockStart` in the page. */
    method Visit(a: Args, bh: nat, blockStart: nat, partial: bool) returns (ret: int, partial': bool)
      requires Ready(a, |bufs|) && bh < |bufs| && blockStart == bh * a.bs
      modifies this`bufs, this`ledger
      ensures Walk(bufs, ledger, ret, partial') == WalkStep(Walk(old(bufs), old(ledger), 0, partial), a, bh)
    {
      var blockEnd := blockStart + a.bs;
      assert blockEnd == (bh + 1) * a.bs;
      ret, partial' := 0, partial;
      if blockEnd <= a.from || blockStart >= a.to {
        if a.track && !bufs[bh].uptodate {
          partial' := true;
        }
      } else {
        ret := Call(a.fn, bh, a.errs[bh]);
      }
    }

    /** The loop over the ring: `bh` is the current buffer, 0 the head. */
    method WalkPageBuffers(a: Args) returns (ret: int, partial: bool)
      requires Ready(a, |bufs|) && |bufs| * a.bs < 0x1_0000_0000
      modifies this`bufs, this`ledger
      ensures Walk(bufs, ledger, ret, partial) == WalkFrom(Walk(old(bufs), old(ledger), 0, false), a, 0)
    {
      hide InRange, WalkStep;
      var n := |bufs|;
      var bh, blockStart := 0, 0;
      ghost var i := 0;
      ghost var start := Walk(bufs, ledger, 0, false);
      ret, partial := 0, false;
      while ret == 0 && (bh != 0 || blockStart == 0)
        invariant |bufs| == n && 0 <= i <= n && blockStart == i * a.bs && bh == (if i == n then 0 else i)
        invariant WalkFrom(Walk(bufs, ledger, ret, partial), a, i) == WalkFrom(start, a, 0)
        decreases n - i
      {
        NextBlock(i, a.bs);
        var next := if bh + 1 == n then 0 else bh + 1;
        ret, partial := Visit(a, bh, blockStart, partial);
        blockStart, bh := blockStart + a.bs, next;
        i := i + 1;
      }
    }

    method DoWritePage(e: Env) returns (ret: int)
      requires EnvOk(e)
      modifies this
      ensures (View(), ret) == WritePage(old(View()), e)
    {
      if hasBuffers && !checked {
        log := log + [InPlace];
        return e.fullErr;
      }
      if handle || e.outer {
        return 0;
      }
      if e.aborted {
        return -EROFS;
      }
      if e.startErr != 0 {
        return e.startErr;
      }
      ghost var was := log;
      handle, ledger, log := true, FreshHandle(), log + [Started];
      checked := false;
      bufs, hasBuffers := e.begun, true;
      if e.beginErr != 0 {
        handle, log := false, log + [Stopped];
        assert log == was + [Started, Stopped];
        return 0;
      }
      var partial;
      ret, partial := WalkPageBuffers(FullPage(GetWriteAccess, e.bs, e.access));
      assert Walk(bufs, ledger, ret, partial) == AccessPass(e);
      var err;
      err, partial := WalkPageBuffers(FullPage(WriteEndFn, e.bs, e.dirty));
      assert Walk(bufs, ledger, err, partial) == DirtyPass(e);
      if ret == 0 {
        ret := err;
      }
      handle, log := false, log + if ret == 0 then [Journalled, Stopped] else [Stopped];
      assert log == was + if ret == 0 then [Started, Journalled, Stopped] else [Started, Stopped];
      if ret == 0 {
        ret := e.stopErr;
      }
    }

    method DoWriteBegin(e: Env) returns (ret: int)
      requires EnvOk(e)
      modifies this
      ensures (View(), ret) == WriteBegin(old(View()), e)
    {
      if handle || e.outer {
        return 0;
      }
      if e.aborted {
        return -EROFS;
      }
      if e.startErr != 0 {
        return e.startErr;
      }
      ghost var was := log;
      handle, ledger, log := true, FreshHandle(), log + [Began];
      bufs, hasBuffers := e.begun, true;
      if e.beginErr != 0 {
        handle, log := false, log + [Stopped];
        assert log == was + [Began, Stopped];
        return 0;
      }
      var partial;
      ret, partial := WalkPageBuffers(FullPage(GetWriteAccess, e.bs, e.access));
      assert Walk(bufs, ledger, ret, partial) == AccessPass(e);
    }

    /** page_zero_new_buffers. */
    method ZeroNewBuffers(bs: nat, from: nat, to: nat)
      modifies this`bufs
      ensures bufs == ZeroNew(old(bufs), bs, from, to, uptodate)
    {
      hide InRange;
      for i := 0 to |bufs|
        invariant |bufs| == old(|bufs|)
        invariant forall j: nat :: j < |bufs| ==>
          bufs[j] == if j < i then ZeroNewBuf(old(bufs)[j], InRange(j, bs, from, to), uptodate) else old(bufs)[j]
      {
        var blockStart, blockEnd := i * bs, (i + 1) * bs;
        var hit := blockEnd > from && blockStart < to;
        assert hit == InRange(i, bs, from, to) by { InRangeMeans(i, bs, from, to); }
        if bufs[i].isNew && hit {
          if !uptodate {
            bufs := bufs[i := bufs[i].(uptodate := true)];
          }
          bufs := bufs[i := bufs[i].(isNew := false, dirty := true)];
        }
      }
    }

    method DoWriteEnd(w: Write) returns (ret: int)
      requires WriteOk(w, |bufs|) && handle
      modifies this
      ensures (View(), ret) == WriteEnd(old(View()), w)
    {
      hide WalkFrom, WalkStep;
      ghost var was := View();
      var copied := w.copied;
      var from := w.pos % PAGE_CACHE_SIZE;
      var to := from + w.len;
      if copied < w.len {
        if !uptodate {
          copied := 0;
        }
        ZeroNewBuffers(w.bs, from + copied, to);
        to := from + copied;
      }
      assert copied == Copied(was, w) && bufs == EndBufs(was, w);
      var partial;
      ret, partial := WalkPageBuffers(Args(WriteEndFn, w.bs, from, to, true, w.dirty));
      assert Walk(bufs, ledger, ret, partial) == EndWalk(was, w);
      if !partial {
        uptodate := true;
      }
      if w.pos + copied > isize {
        isize := w.pos + copied;
      }
      handle, log := false, log + [Stopped];
      if ret == 0 {
        ret := w.stopErr;
      }
      if ret == 0 {
        ret := copied;
      }
    }

    method DoSetPageDirty()
      modifies this
      ensures View() == SetPageDirty(old(View()))
    {
      checked := true;
      log := log + [Dirtied];
    }
  }
}
