/**
 Runs of the journalled page operations: one task working on one page, in any order the VFS allows
 and with any outcome of what it does not decide itself.
 */
module JournalRuns {
  import opened JournalWalk
  import opened JournalPage
  import opened JournalSafety

  datatype Op = OpDirty | OpWritePage(e: Env) | OpWriteBegin(e: Env) | OpWriteEnd(w: Write)

  /** `writing`: a write_begin has returned 0 and its write_end is still to come. */
  datatype Task = Task(page: Page, writing: bool)

  /** Pages have n blocks. */
  predicate OpOk(op: Op, n: nat) {
    match op
    case OpDirty => true
    case OpWritePage(e) => EnvOk(e) && |e.begun| == n
    case OpWriteBegin(e) => EnvOk(e) && |e.begun| == n
    case OpWriteEnd(w) => WriteOk(w, n)
  }

  predicate OpsOk(ops: seq<Op>, n: nat) {
    forall i :: 0 <= i < |ops| ==> OpOk(ops[i], n)
  }

  /** The VFS calls write_end once for each write_begin that returned 0, and for no other. */
  predicate Legal(t: Task, op: Op) {
    match op
    case OpWriteBegin(_) => !t.writing
    case OpWriteEnd(_) => t.writing && t.page.handle
    case _ => true
  }

  function Apply(t: Task, op: Op): (t': Task)
    requires OpOk(op, |t.page.bufs|)
    ensures |t'.page.bufs| == |t.page.bufs|
  {
    if !Legal(t, op) then t
    else
      match op
      case OpDirty => t.(page := SetPageDirty(t.page))
      case OpWritePage(e) => t.(page := WritePage(t.page, e).0)
      case OpWriteBegin(e) => Task(WriteBegin(t.page, e).0, WriteBegin(t.page, e).1 == 0)
      case OpWriteEnd(w) => Task(WriteEnd(t.page, w).0, false)
  }

  function Run(t: Task, ops: seq<Op>): (t': Task)
    requires OpsOk(ops, |t.page.bufs|)
    ensures |t'.page.bufs| == |t.page.bufs|
    decreases |ops|
  {
    if ops == [] then t else Run(Apply(t, ops[0]), ops[1..])
  }

  predicate Fresh(t: Task) {
    !t.writing && !t.page.handle && !t.page.checked && t.page.log == []
  }

  // ---- what a log says ----

  /** Dirtied, and no writepage has started a handle since. */
  predicate NeedsStart(log: seq<Event>)
    decreases |log|
  {
    log != [] &&
    var last := log[|log| - 1];
    last.Dirtied? || (!last.Started? && NeedsStart(log[..|log| - 1]))
  }

  /** Dirtied, and no writepage has taken it through both passes since. */
  predicate NeedsJournal(log: seq<Event>)
    decreases |log|
  {
    log != [] &&
    var last := log[|log| - 1];
    last.Dirtied? || (!last.Journalled? && NeedsJournal(log[..|log| - 1]))
  }

  /** Every in-place write of the log was preceded, since the last set_page_dirty, by a start. */
  ghost predicate Guarded(log: seq<Event>) {
    forall i :: 0 <= i < |log| && log[i].InPlace? ==> !NeedsStart(log[..i])
  }

  /** ... by a completed journalling. */
  ghost predicate Journaled(log: seq<Event>) {
    forall i :: 0 <= i < |log| && log[i].InPlace? ==> !NeedsJournal(log[..i])
  }

  lemma Extend(log: seq<Event>, x: Event)
    ensures NeedsStart(log + [x]) <==> x.Dirtied? || (!x.Started? && NeedsStart(log))
    ensures NeedsJournal(log + [x]) <==> x.Dirtied? || (!x.Journalled? && NeedsJournal(log))
    ensures Guarded(log + [x]) <==> Guarded(log) && (x.InPlace? ==> !NeedsStart(log))
    ensures Journaled(log + [x]) <==> Journaled(log) && (x.InPlace? ==> !NeedsJournal(log))
  {
    var l := log + [x];
    assert l[..|l| - 1] == log && l[|l| - 1] == x;
    assert forall i :: 0 <= i < |log| ==> l[i] == log[i] && l[..i] == log[..i];
    assert l[..|log|] == log;
  }

  /** A log extended by something that neither dirties nor journals. */
  predicate SameDebt(log: seq<Event>, log': seq<Event>) {
    && (NeedsStart(log') <==> NeedsStart(log)) && (NeedsJournal(log') <==> NeedsJournal(log))
  }

  ghost predicate SameHistory(log: seq<Event>, log': seq<Event>) {
    (Guarded(log') <==> Guarded(log)) && (Journaled(log') <==> Journaled(log))
  }

  lemma AfterWriteBegin(log: seq<Event>)
    ensures SameDebt(log, log + [Began]) && SameHistory(log, log + [Began])
    ensures SameDebt(log, log + [Began, Stopped]) && SameHistory(log, log + [Began, Stopped])
  {
    hide NeedsStart, NeedsJournal, Guarded, Journaled;
    Extend(log, Began);
    Extend(log + [Began], Stopped);
    assert log + [Began, Stopped] == log + [Began] + [Stopped];
  }

  lemma AfterFailedStart(log: seq<Event>)
    ensures var l := log + [Started, Stopped];
            !NeedsStart(l) && (NeedsJournal(l) <==> NeedsJournal(log)) && SameHistory(log, l)
  {
    hide NeedsStart, NeedsJournal, Guarded, Journaled;
    Extend(log, Started);
    Extend(log + [Started], Stopped);
    assert log + [Started, Stopped] == log + [Started] + [Stopped];
  }

  lemma AfterJournalling(log: seq<Event>)
    ensures var l := log + [Started, Journalled, Stopped];
            !NeedsStart(l) && !NeedsJournal(l) && SameHistory(log, l)
  {
    hide NeedsStart, NeedsJournal, Guarded, Journaled;
    Extend(log, Started);
    Extend(log + [Started], Journalled);
    Extend(log + [Started] + [Journalled], Stopped);
    assert log + [Started, Journalled, Stopped] == log + [Started] + [Journalled] + [Stopped];
  }

  predicate PageInv(p: Page) {
    p.checked <==> NeedsStart(p.log)
  }

  /** Handles are started and stopped in turn; `open` tells whether one is open at the end. */
  predicate Alternates(log: seq<Event>, open: bool)
    decreases |log|
  {
    if log == [] then !open
    else
      var init := log[..|log| - 1];
      match log[|log| - 1]
      case Started => open && Alternates(init, false)
      case Began => open && Alternates(init, false)
      case Stopped => !open && Alternates(init, true)
      case _ => Alternates(init, open)
  }

  lemma ExtendHandles(log: seq<Event>, x: Event, open: bool)
    ensures Alternates(log + [x], open) <==>
            if x.Started? || x.Began? then open && Alternates(log, false)
            else if x.Stopped? then !open && Alternates(log, true)
            else Alternates(log, open)
  {
    assert (log + [x])[..|log + [x]| - 1] == log;
  }

  /** A handle started and stopped again. */
  lemma AfterPair(log: seq<Event>, x: Event)
    requires x.Started? || x.Began?
    ensures Alternates(log + [x, Stopped], false) <==> Alternates(log, false)
    ensures Alternates(log + [x, Journalled, Stopped], false) <==> Alternates(log, false)
  {
    hide Alternates;
    assert log + [x, Stopped] == log + [x] + [Stopped];
    assert log + [x, Journalled, Stopped] == log + [x] + [Journalled] + [Stopped];
    ExtendHandles(log + [x], Stopped, false);
    ExtendHandles(log + [x] + [Journalled], Stopped, false);
    ExtendHandles(log + [x], Journalled, true);
    ExtendHandles(log, x, true);
  }

  // ---- phases of the page and of the task's handle, from the operations alone ----

  /** Vain: dirty, but the next writepage does not see it, since PageChecked was cleared by a writepage
      that then did not get the page journalled. */
  datatype Phase = Clean | Dirty | Vain

  /** Writing: between a write_begin that returned 0 with a handle and its write_end. Orphan: between
      one that returned 0 without a handle of its own and its write_end. Leaked: a handle is open and
      no write is in progress. */
  datatype Status = Closed | Writing | Orphan | Leaked

  /** journal_start is reached and works. */
  predicate CanStart(st: Status, e: Env) {
    !st.Writing? && !st.Leaked? && !e.outer && !e.aborted && e.startErr == 0
  }

  function NextPhase(ph: Phase, st: Status, op: Op, n: nat): Phase
    requires OpOk(op, n)
  {
    match op
    case OpDirty => Dirty
    case OpWritePage(e) =>
      if ph.Dirty? && CanStart(st, e) then (if e.beginErr != 0 || Refuses(e) then Vain else Clean) else ph
    case _ => ph
  }

  function NextStatus(st: Status, op: Op, n: nat): Status
    requires OpOk(op, n)
  {
    match op
    case OpWriteBegin(e) =>
      if st.Leaked? then Writing
      else if !st.Closed? then st
      else if e.outer then Orphan
      else if !CanStart(st, e) then Closed
      else if e.beginErr != 0 then Orphan
      else if RefusesAccess(e) then Leaked
      else Writing
    case OpWriteEnd(_) => if st.Writing? then Closed else st
    case _ => st
  }

  function StatusOf(t: Task): Status {
    if t.page.handle then (if t.writing then Writing else Leaked)
    else if t.writing then Orphan
    else Closed
  }

  function PhaseOf(p: Page): Phase {
    if p.checked then Dirty else if NeedsJournal(p.log) then Vain else Clean
  }

  predicate TaskInv(t: Task) {
    var p := t.page;
    && PageInv(p) && Alternates(p.log, p.handle)
    && (p.checked ==> NeedsJournal(p.log))
    && (PhaseOf(p).Vain? ==> p.hasBuffers)
  }

  /** What one operation does: it keeps the invariant, moves both phases as said, and spoils neither
      promise about in-place writes but by a writepage in phase Vain. */
  ghost predicate StepsAsSaid(t: Task, op: Op, t': Task)
    requires OpOk(op, |t.page.bufs|)
  {
    var n, log, log' := |t.page.bufs|, t.page.log, t'.page.log;
    && TaskInv(t')
    && PhaseOf(t'.page) == NextPhase(PhaseOf(t.page), StatusOf(t), op, n)
    && StatusOf(t') == NextStatus(StatusOf(t), op, n)
    && (Guarded(log) ==> Guarded(log'))
    && (Journaled(log') <==> Journaled(log) && !(op.OpWritePage? && PhaseOf(t.page).Vain?))
  }

  lemma DirtyKeeps(t: Task)
    requires TaskInv(t)
    ensures StepsAsSaid(t, OpDirty, Apply(t, OpDirty))
  {
    hide NeedsStart, NeedsJournal, Guarded, Journaled, Alternates;
    Extend(t.page.log, Dirtied);
    ExtendHandles(t.page.log, Dirtied, t.page.handle);
  }

  lemma WritePageKeeps(t: Task, e: Env)
    requires TaskInv(t) && EnvOk(e) && |e.begun| == |t.page.bufs|
    ensures StepsAsSaid(t, OpWritePage(e), Apply(t, OpWritePage(e)))
    ensures Apply(t, OpWritePage(e)).page.handle == t.page.handle
  {
    hide NeedsStart, NeedsJournal, Guarded, Journaled, Alternates, AccessPass, DirtyPass, Refuses;
    var log := t.page.log;
    WhenAPassFails(e);
    Extend(log, InPlace);
    ExtendHandles(log, InPlace, t.page.handle);
    AfterFailedStart(log);
    AfterJournalling(log);
    AfterPair(log, Started);
  }

  lemma WriteBeginKeeps(t: Task, e: Env)
    requires TaskInv(t) && EnvOk(e) && |e.begun| == |t.page.bufs|
    ensures StepsAsSaid(t, OpWriteBegin(e), Apply(t, OpWriteBegin(e)))
  {
    hide NeedsStart, NeedsJournal, Guarded, Journaled, Alternates, AccessPass, RefusesAccess;
    var log := t.page.log;
    WhenAccessFails(e);
    AfterWriteBegin(log);
    AfterPair(log, Began);
    ExtendHandles(log, Began, true);
  }

  lemma WriteEndKeeps(t: Task, w: Write)
    requires TaskInv(t) && WriteOk(w, |t.page.bufs|)
    ensures StepsAsSaid(t, OpWriteEnd(w), Apply(t, OpWriteEnd(w)))
  {
    hide NeedsStart, NeedsJournal, Guarded, Journaled, Alternates, EndWalk;
    Extend(t.page.log, Stopped);
    ExtendHandles(t.page.log, Stopped, false);
  }

  lemma ApplyKeeps(t: Task, op: Op)
    requires TaskInv(t) && OpOk(op, |t.page.bufs|)
    ensures StepsAsSaid(t, op, Apply(t, op))
  {
    match op
    case OpDirty => DirtyKeeps(t);
    case OpWritePage(e) => WritePageKeeps(t, e);
    case OpWriteBegin(e) => WriteBeginKeeps(t, e);
    case OpWriteEnd(w) => WriteEndKeeps(t, w);
  }

  lemma FreshKeeps(t: Task)
    requires Fresh(t)
    ensures TaskInv(t) && Guarded(t.page.log) && Journaled(t.page.log)
    ensures PhaseOf(t.page) == Clean && StatusOf(t) == Closed
  {
  }

  // ---- journal before in-place write ----

  /** Over every run, block_write_full_page is never reached between a set_page_dirty and the next
      writepage that started a handle: only that step clears PageChecked. */
  lemma {:induction false} InPlaceIsGuarded(t: Task, ops: seq<Op>)
    requires TaskInv(t) && Guarded(t.page.log) && OpsOk(ops, |t.page.bufs|)
    ensures TaskInv(Run(t, ops)) && Guarded(Run(t, ops).page.log)
    decreases |ops|
  {
    hide TaskInv, Guarded;
    if ops != [] {
      ApplyKeeps(t, ops[0]);
      InPlaceIsGuarded(Apply(t, ops[0]), ops[1..]);
    }
  }

  /** No writepage of the run comes in phase Vain. */
  predicate NeverInVain(ph: Phase, st: Status, ops: seq<Op>, n: nat)
    requires OpsOk(ops, n)
    decreases |ops|
  {
    ops != [] ==>
      && !(ops[0].OpWritePage? && ph.Vain?)
      && NeverInVain(NextPhase(ph, st, ops[0], n), NextStatus(st, ops[0], n), ops[1..], n)
  }

  lemma {:induction false} PhasesDecide(t: Task, ops: seq<Op>)
    requires TaskInv(t) && Journaled(t.page.log) && OpsOk(ops, |t.page.bufs|)
    ensures Journaled(Run(t, ops).page.log) <==> NeverInVain(PhaseOf(t.page), StatusOf(t), ops, |t.page.bufs|)
    decreases |ops|
  {
    hide TaskInv, Journaled, PhaseOf, StatusOf, NextPhase, NextStatus;
    if ops != [] {
      var t' := Apply(t, ops[0]);
      ApplyKeeps(t, ops[0]);
      if Journaled(t'.page.log) {
        PhasesDecide(t', ops[1..]);
      } else {
        StaysUnjournaled(t', ops[1..]);
      }
    }
  }

  lemma {:induction false} StaysUnjournaled(t: Task, ops: seq<Op>)
    requires TaskInv(t) && !Journaled(t.page.log) && OpsOk(ops, |t.page.bufs|)
    ensures !Journaled(Run(t, ops).page.log)
    decreases |ops|
  {
    hide TaskInv, Journaled;
    if ops != [] {
      ApplyKeeps(t, ops[0]);
      StaysUnjournaled(Apply(t, ops[0]), ops[1..]);
    }
  }

  /** Data goes to its place on disk only after it went through the journal, exactly in the runs in which
      no writepage follows, without a set_page_dirty in between, one that was given a handle for the
      dirty page and then refused a block. */
  lemma InPlaceIsJournaledExactly(t: Task, ops: seq<Op>)
    requires Fresh(t) && OpsOk(ops, |t.page.bufs|)
    ensures Journaled(Run(t, ops).page.log) <==> NeverInVain(Clean, Closed, ops, |t.page.bufs|)
  {
    FreshKeeps(t);
    PhasesDecide(t, ops);
  }

  /** A writepage of a dirty page leaves it dirty and unseen exactly when it starts a handle and then
      __block_write_begin fails, or the library refuses access to a block or to dirty it. */
  lemma WhenAStartIsInVain(p: Page, e: Env)
    requires PageInv(p) && EnvOk(e) && p.checked && NeedsJournal(p.log)
    ensures PhaseOf(WritePage(p, e).0).Vain? <==> Starts(p, e) && (e.beginErr != 0 || Refuses(e))
  {
    hide NeedsStart, NeedsJournal, AccessPass, DirtyPass, Refuses;
    WhenAPassFails(e);
    AfterFailedStart(p.log);
    AfterJournalling(p.log);
  }

  /** It happens: dirty the page, let __block_write_begin fail once (writepage returns 0), write again. */
  lemma UnjournaledInPlaceWrite(t: Task, e: Env)
    requires Fresh(t) && EnvOk(e) && |e.begun| == |t.page.bufs|
    requires Starts(t.page, e) && e.beginErr != 0
    ensures WritePage(SetPageDirty(t.page), e).1 == 0
    ensures var ops := [OpDirty, OpWritePage(e), OpWritePage(e)];
            !Journaled(Run(t, ops).page.log)
  {
    var ops := [OpDirty, OpWritePage(e), OpWritePage(e)];
    InPlaceIsJournaledExactly(t, ops);
    var n := |t.page.bufs|;
    assert ops[1..] == [OpWritePage(e), OpWritePage(e)] && ops[1..][1..] == [OpWritePage(e)];
    assert !NeverInVain(Vain, Closed, [OpWritePage(e)], n);
    assert !NeverInVain(Dirty, Closed, [OpWritePage(e), OpWritePage(e)], n);
  }

  /** A page dirtied again is not written in place by the next writepage, whatever was left of earlier
      ones; it stays marked until one gets a handle. */
  lemma DirtiedPageGetsAHandle(t: Task, e: Env)
    requires TaskInv(t) && EnvOk(e) && |e.begun| == |t.page.bufs| && Journaled(t.page.log)
    ensures var t1 := Apply(t, OpDirty);
            var t2 := Apply(t1, OpWritePage(e));
            Journaled(t2.page.log) && (t2.page.checked <==> !Starts(t.page, e))
  {
    hide Journaled, TaskInv, PhaseOf;
    var t1 := Apply(t, OpDirty);
    ApplyKeeps(t, OpDirty);
    assert PhaseOf(t1.page) == Dirty;
    ApplyKeeps(t1, OpWritePage(e));
  }

  // ---- handles ----

  /** A handle is open and nobody is going to stop it. */
  predicate Leaks(t: Task) {
    t.page.handle && !t.writing
  }

  /** Over every run handles are started and stopped in turn: each is stopped once before the next
      starts, and nothing else is stopped. A writepage leaves open what was open before, and no more. */
  lemma {:induction false} HandlesAreStopped(t: Task, ops: seq<Op>)
    requires TaskInv(t) && OpsOk(ops, |t.page.bufs|)
    ensures Alternates(Run(t, ops).page.log, Run(t, ops).page.handle)
    ensures (forall i :: 0 <= i < |ops| ==> ops[i].OpWritePage? || ops[i].OpDirty?) ==>
              Run(t, ops).page.handle == t.page.handle
    decreases |ops|
  {
    hide Alternates, NeedsJournal, PageInv, Guarded, Journaled, WritePage, WriteBegin, WriteEnd;
    if ops != [] {
      ApplyKeeps(t, ops[0]);
      if ops[0].OpWritePage? { WritePageKeeps(t, ops[0].e); }
      HandlesAreStopped(Apply(t, ops[0]), ops[1..]);
    }
  }

  /** No write_begin of the run starts a handle and is then refused access. */
  predicate NoRefusedWrite(st: Status, ops: seq<Op>, n: nat)
    requires OpsOk(ops, n)
    decreases |ops|
  {
    ops != [] ==>
      && !(ops[0].OpWriteBegin? && st.Closed? && CanStart(st, ops[0].e)
           && ops[0].e.beginErr == 0 && RefusesAccess(ops[0].e))
      && NoRefusedWrite(NextStatus(st, ops[0], n), ops[1..], n)
  }

  /** No handle is ever left open without a write in progress, exactly in the runs in which no
      write_begin is refused access after it has started a handle: that path returns the error, so
      no write_end follows, and does not stop the handle. */
  lemma {:induction false} HandlesLeakExactly(t: Task, ops: seq<Op>)
    requires TaskInv(t) && !Leaks(t) && OpsOk(ops, |t.page.bufs|)
    ensures (forall k :: 0 <= k <= |ops| ==> !Leaks(Run(t, ops[..k]))) <==>
            NoRefusedWrite(StatusOf(t), ops, |t.page.bufs|)
    decreases |ops|
  {
    hide TaskInv, Apply, Guarded, Journaled, RefusesAccess;
    assert Run(t, ops[..0]) == t;
    if ops != [] {
      var t', rest := Apply(t, ops[0]), ops[1..];
      ApplyKeeps(t, ops[0]);
      forall k | 0 <= k <= |rest| ensures Run(t, ops[..k + 1]) == Run(t', rest[..k]) {
        assert ops[..k + 1][1..] == rest[..k];
      }
      if Leaks(t') {
        assert Run(t', rest[..0]) == t' && Leaks(Run(t, ops[..0 + 1]));
      } else {
        HandlesLeakExactly(t', rest);
        if NoRefusedWrite(StatusOf(t'), rest, |t'.page.bufs|) {
          forall k | 0 <= k <= |ops| ensures !Leaks(Run(t, ops[..k])) {
            if k > 0 { assert Run(t, ops[..k]) == Run(t', rest[..k - 1]); }
          }
        } else {
          var k :| 0 <= k <= |rest| && Leaks(Run(t', rest[..k]));
          assert Leaks(Run(t, ops[..k + 1]));
        }
      }
    }
  }

  /** How many handles were started. */
  function Opens(log: seq<Event>): nat
    decreases |log|
  {
    if log == [] then 0
    else Opens(log[..|log| - 1]) + if log[|log| - 1].Started? || log[|log| - 1].Began? then 1 else 0
  }

  lemma OpensMore(log: seq<Event>, x: Event)
    ensures Opens(log + [x]) == Opens(log) + if x.Started? || x.Began? then 1 else 0
  {
    assert (log + [x])[..|log + [x]| - 1] == log;
  }

  /** While a handle is open, leaked or not, no operation starts one; until some write_end, of whatever
      write, stops it. */
  lemma {:induction false} OpenHandleBlocks(t: Task, ops: seq<Op>)
    requires t.page.handle && OpsOk(ops, |t.page.bufs|)
    requires forall i :: 0 <= i < |ops| ==> !ops[i].OpWriteEnd?
    ensures Run(t, ops).page.handle && Opens(Run(t, ops).page.log) == Opens(t.page.log)
    decreases |ops|
  {
    hide Opens;
    if ops != [] {
      OpensMore(t.page.log, Dirtied);
      OpensMore(t.page.log, InPlace);
      OpenHandleBlocks(Apply(t, ops[0]), ops[1..]);
    }
  }

  /** A leaked handle is used by the next write: refused access to the page's block, write_begin leaves
      its handle open; the next write_begin returns 0 without asking for access, and write_end dirties
      the block under the leaked handle, without access. */
  lemma LeakedHandleIsUsed(p: Page, e2: Env) returns (e: Env, w: Write)
    requires !p.handle && EnvOk(e2)
    ensures EnvOk(e) && WriteBegin(p, e).1 != 0
    ensures var p1 := WriteBegin(p, e).0;
            && WriteBegin(p1, e2) == (p1, 0)
            && WriteOk(w, |p1.bufs|) && p1.handle && WriteEnd(p1, w).0.ledger.unguarded != {}
  {
    var b := Buf(true, false, true, false, false);
    e := Env(PAGE_CACHE_SIZE, false, false, 0, 0, [b], [-5], [0], 0, 0);
    w := Write(0, PAGE_CACHE_SIZE, PAGE_CACHE_SIZE, PAGE_CACHE_SIZE, [0], 0);
    AccessGrants(e);
    assert Journalable(e.begun[0]);
    WhenAccessFails(e);
    var p1 := WriteBegin(p, e).0;
    var bufs, a := EndBufs(p1, w), EndArgs(p1, w);
    DirtyLedger(Walk(bufs, p1.ledger, 0, false), a, 0);
    assert InRange(0, w.bs, a.from, a.to);
    assert Dirties(bufs, a, 0, 0, StopAt(bufs, a, 0));
    assert 0 in WriteEnd(p1, w).0.ledger.unguarded;
  }
}
