/**
 The blocking protocol of protect/pipe.c: any number of threads in read, write and
 PIPE_RESET, one semaphore and two wait queues.

 A state maps every thread to its program counter. `Step` is one atomic action of one
 thread; everything the thread does not decide itself (signals, copy faults, the next call)
 is a `Choice`. Each unlocked load of `rp` or `wp` and each of the two stores of a reset is a
 step of its own, so a waiting thread may see a torn or transient pair of pointers.
 */
module PipeProtocol {
  import opened Common
  import opened PipeRing

  type Tid = nat

  datatype Call = Read(count: nat) | Write(bytes: seq<Byte>) | Reset

  datatype Result = Bytes(bytes: seq<Byte>) | Count(n: nat) | EFAULT | ERESTARTSYS

  /** An unlocked test loads the two pointers in an order the compiler chooses. */
  datatype Load = Rp(at: nat) | Wp(at: nat)

  datatype Pc =
    | Idle(last: Result)
    | Down(call: Call)                             // about to take the semaphore
    | Guard(call: Call)                            // holds it; evaluates the while condition
    | Test(call: Call)                             // wait_event: first test, not queued yet
    | Tested(call: Call, seen: Load)               // ... after the first of its two loads
    | Enqueue(call: Call)                          // prepare_to_wait
    | Queued(call: Call, woken: bool)              // on the wait queue, about to test
    | Loaded(call: Call, woken: bool, seen: Load)  // ... after the first of its two loads
    | Asleep(call: Call, woken: bool)              // schedule()
    | Copy(call: Call, n: nat)                     // holds; n is the clipped count
    | Advance(call: Call, moved: seq<Byte>)        // holds; bytes copied, pointer not moved yet
    | Wrap(call: Call, moved: seq<Byte>)           // holds; pointer moved, maybe at `end`
    | Up(call: Call, moved: seq<Byte>)             // holds; about to release
    | Wake(call: Call, moved: seq<Byte>)           // released; about to wake the other side
    | Fail(call: Call)                             // holds; the copy faulted
    | ResetWp | ResetRp | ResetUp                  // hold; the two stores of a reset, release

  /** What a step does to the queue of bytes between writers and readers. */
  datatype Effect = Stutter | In(bytes: seq<Byte>) | Out(bytes: seq<Byte>) | Clear

  /** What the threads share. `accepted` and `delivered` are histories: the bytes written
      and read since the last reset. */
  datatype Shared = Shared(ring: Ring, sem: nat, accepted: seq<Byte>, delivered: seq<Byte>)

  datatype State = State(sh: Shared, pcs: map<Tid, Pc>)

  /** `kept` is how many bytes a faulting copy stored before it failed. */
  datatype Choice = Choice(call: Call, signal: bool, fault: bool, kept: nat, wpFirst: bool)

  // ---- one step ----

  /** Inside the critical section. */
  predicate Holds(pc: Pc) {
    pc.Guard? || pc.Copy? || pc.Advance? || pc.Wrap? || pc.Up? || pc.Fail?
    || pc.ResetWp? || pc.ResetRp? || pc.ResetUp?
  }

  /** Between moving a pointer and waking the other side. */
  predicate Publishing(pc: Pc) {
    pc.Wrap? || pc.Up? || pc.Wake?
  }

  function FirstLoad(r: Ring, wpFirst: bool): Load {
    if wpFirst then Wp(r.wp) else Rp(r.rp)
  }

  /** The wait condition, of the pointer loaded first and the other one as it is now. */
  predicate Condition(r: Ring, c: Call, seen: Load) {
    var rp, wp := if seen.Rp? then seen.at else r.rp, if seen.Wp? then seen.at else r.wp;
    if c.Read? then wp != rp else SpaceFree(|r.data|, rp, wp) != 0
  }

  /** The locked while condition: wait while it holds. */
  predicate MustWait(r: Ring, c: Call) {
    if c.Read? then r.wp == r.rp else SpaceFree(|r.data|, r.rp, r.wp) == 0
  }

  function Clip(r: Ring, c: Call): nat
    requires r.wp <= |r.data|
  {
    match c
    case Read(count) => ReadCount(r, count)
    case Write(bytes) => WriteCount(r, |bytes|)
    case Reset => 0
  }

  function Value(c: Call, moved: seq<Byte>): Result {
    if c.Read? then Bytes(moved) else Count(|moved|)
  }

  /** Where a thread at `pc` goes next. */
  function NextPc(sh: Shared, pc: Pc, c: Choice): Pc
    requires PcOk(sh.ring, pc) && sh.ring.wp <= |sh.ring.data|
  {
    var r := sh.ring;
    match pc
    case Idle(_) => Down(c.call)
    case Down(call) =>
      if sh.sem > 0 then (if call.Reset? then ResetWp else Guard(call))
      else if c.signal then Idle(ERESTARTSYS)
      else pc
    case Guard(call) => if MustWait(r, call) then Test(call) else Copy(call, Clip(r, call))
    case Test(call) => Tested(call, FirstLoad(r, c.wpFirst))
    case Tested(call, v) => if Condition(r, call, v) then Down(call) else Enqueue(call)
    case Enqueue(call) => Queued(call, false)
    case Queued(call, woken) => Loaded(call, woken, FirstLoad(r, c.wpFirst))
    case Loaded(call, woken, v) =>
      if Condition(r, call, v) then Down(call)
      else if c.signal then Idle(ERESTARTSYS)
      else Asleep(call, woken)
    case Asleep(call, woken) => if woken || c.signal then Enqueue(call) else pc
    case Copy(call, n) =>
      if c.fault then Fail(call)
      else Advance(call, if call.Read? then r.data[r.rp..r.rp + n] else call.bytes[..n])
    case Advance(call, moved) => Wrap(call, moved)
    case Wrap(call, moved) => Up(call, moved)
    case Up(call, moved) => Wake(call, moved)
    case Wake(call, moved) => Idle(Value(call, moved))
    case Fail(_) => Idle(EFAULT)
    case ResetWp => ResetRp
    case ResetRp => ResetUp
    case ResetUp => Idle(Count(0))
  }

  /** What the same step does to the buffer and its pointers. */
  function NextRing(r: Ring, pc: Pc, c: Choice): Ring
    requires PcOk(r, pc)
  {
    match pc
    case Copy(Write(bytes), n) =>
      r.(data := Overwrite(r.data, r.wp, bytes[..if c.fault then Min(c.kept, n) else n]))
    case Advance(call, moved) =>
      if call.Read? then r.(rp := r.rp + |moved|) else r.(wp := r.wp + |moved|)
    case Wrap(call, _) =>
      if call.Read? then r.(rp := Wrapped(r.rp, |r.data|)) else r.(wp := Wrapped(r.wp, |r.data|))
    case ResetWp => r.(wp := 0)
    case ResetRp => r.(rp := 0)
    case _ => r
  }

  /** ... and to the semaphore: `down` on the way in, one `up` on each way out. */
  function NextSem(sh: Shared, pc: Pc): nat {
    match pc
    case Down(_) => if sh.sem > 0 then sh.sem - 1 else 0
    case Guard(call) => if MustWait(sh.ring, call) then sh.sem + 1 else sh.sem
    case Up(_, _) => sh.sem + 1
    case Fail(_) => sh.sem + 1
    case ResetUp => sh.sem + 1
    case _ => sh.sem
  }

  function EffectOf(pc: Pc): Effect {
    match pc
    case Advance(call, moved) => if call.Read? then Out(moved) else In(moved)
    case ResetWp => Clear
    case _ => Stutter
  }

  function NextShared(sh: Shared, pc: Pc, c: Choice): Shared
    requires PcOk(sh.ring, pc)
  {
    var e := EffectOf(pc);
    Shared(NextRing(sh.ring, pc, c), NextSem(sh, pc),
      if e.Clear? then [] else if e.In? then sh.accepted + e.bytes else sh.accepted,
      if e.Clear? then [] else if e.Out? then sh.delivered + e.bytes else sh.delivered)
  }

  /** wake_up on one queue, as seen by one thread: a waiter on it becomes runnable. */
  function Woken(pc: Pc, readers: bool): Pc {
    match pc
    case Queued(c, _) => if c.Read? == readers then Queued(c, true) else pc
    case Loaded(c, _, v) => if c.Read? == readers then Loaded(c, true, v) else pc
    case Asleep(c, _) => if c.Read? == readers then Asleep(c, true) else pc
    case _ => pc
  }

  function Bystander(pc: Pc, mover: Pc): Pc {
    if mover.Wake? then Woken(pc, !mover.call.Read?) else pc
  }

  function Step(s: State, t: Tid, c: Choice): State
    requires Core(s) && t in s.pcs
  {
    var pc := s.pcs[t];
    State(NextShared(s.sh, pc, c),
      map u | u in s.pcs :: if u == t then NextPc(s.sh, pc, c) else Bystander(s.pcs[u], pc))
  }

  // ---- the core invariant: mutual exclusion and pointer ranges ----

  /** What a thread at `pc` may rely on: without the semaphore, only that what it loaded was a pointer. */
  predicate PcOk(r: Ring, pc: Pc) {
    match pc
    case Copy(call, n) =>
      Settled(r) && !MustWait(r, call) && n == Clip(r, call) && !call.Reset?
      && (if call.Read? then r.rp + n <= |r.data| else n <= |call.bytes| && r.wp + n <= |r.data|)
    case Advance(call, moved) =>
      Settled(r) && !MustWait(r, call) && |moved| == Clip(r, call) && !call.Reset?
      && (if call.Read? then r.rp + |moved| <= |r.data| && moved == r.data[r.rp..r.rp + |moved|]
          else moved <= call.bytes && r.wp + |moved| <= |r.data| && moved == r.data[r.wp..r.wp + |moved|])
    case Wrap(call, moved) => Bounded(r) && (if call.Read? then r.wp < |r.data| else r.rp < |r.data|)
    case ResetRp => Bounded(r) && r.wp == 0 && r.rp < |r.data|
    case Tested(_, seen) => seen.at <= |r.data|
    case Loaded(_, _, seen) => seen.at <= |r.data|
    case _ => Holds(pc) ==> Settled(r)
  }

  /** Reset calls never wait; the other calls never run the reset's stores. */
  predicate CallFits(pc: Pc) {
    pc.Idle? || pc.Down? || pc.ResetWp? || pc.ResetRp? || pc.ResetUp? || !pc.call.Reset?
  }

  ghost function Owners(pcs: map<Tid, Pc>): set<Tid> {
    set t | t in pcs && Holds(pcs[t])
  }

  /** The semaphore's count plus the number of threads in a critical section is always one. */
  ghost predicate Exclusive(s: State) {
    s.sh.sem + |Owners(s.pcs)| == 1
  }

  ghost predicate Core(s: State) {
    && Exclusive(s)
    && Bounded(s.sh.ring)
    && (s.sh.sem == 1 ==> Settled(s.sh.ring))
    && (forall t :: t in s.pcs ==> CallFits(s.pcs[t]) && PcOk(s.sh.ring, s.pcs[t]))
  }

  /** The only thread that may be in a critical section is the one holding the semaphore. */
  lemma OnlyOwner(s: State, t: Tid)
    requires Exclusive(s) && t in s.pcs && Holds(s.pcs[t])
    ensures Owners(s.pcs) == {t} && s.sh.sem == 0
    ensures forall u :: u in s.pcs && Holds(s.pcs[u]) ==> u == t
  {
    var o := Owners(s.pcs);
    assert |o - {t}| == |o| - 1;
    assert o - {t} == {};
    assert forall u :: u in s.pcs && Holds(s.pcs[u]) ==> u in o;
  }

  /** Every path releases the semaphore exactly as often as it took it. */
  lemma SemaphoreBalance(sh: Shared, pc: Pc, c: Choice)
    requires PcOk(sh.ring, pc) && sh.ring.wp <= |sh.ring.data|
    ensures var pc' := NextPc(sh, pc, c);
            NextSem(sh, pc) + (if Holds(pc') then 1 else 0) == sh.sem + (if Holds(pc) then 1 else 0)
  {
  }

  /** What a step of the thread itself guarantees: the next step's assumptions, and a
      settled ring on leaving the critical section. */
  predicate Handover(r: Ring, pc: Pc, r': Ring, pc': Pc) {
    && Bounded(r') && |r'.data| == |r.data| && PcOk(r', pc') && CallFits(pc')
    && (Holds(pc) && !Holds(pc') ==> Settled(r'))
    && (!Holds(pc) ==> r' == r)
  }

  lemma CopyKeepsPointers(sh: Shared, pc: Pc, c: Choice)
    requires pc.Copy? && PcOk(sh.ring, pc) && CallFits(pc)
    ensures Handover(sh.ring, pc, NextRing(sh.ring, pc, c), NextPc(sh, pc, c))
  {
    var r', pc' := NextRing(sh.ring, pc, c), NextPc(sh, pc, c);
    assert Settled(r');
    if pc.call.Write? && !c.fault {
      OverwriteThere(sh.ring.data, r'.wp, pc'.moved);
    }
  }

  lemma AdvanceKeepsPointers(sh: Shared, pc: Pc, c: Choice)
    requires pc.Advance? && PcOk(sh.ring, pc) && CallFits(pc)
    ensures Handover(sh.ring, pc, NextRing(sh.ring, pc, c), NextPc(sh, pc, c))
  {
    if pc.call.Read? { ReadFits(sh.ring, pc.call.count); } else { WriteFits(sh.ring, |pc.call.bytes|); }
  }

  lemma GuardKeepsPointers(sh: Shared, pc: Pc, c: Choice)
    requires pc.Guard? && PcOk(sh.ring, pc) && CallFits(pc)
    ensures Handover(sh.ring, pc, NextRing(sh.ring, pc, c), NextPc(sh, pc, c))
  {
    hide Contents, SpaceFree, ReadCount, WriteCount;
    if !MustWait(sh.ring, pc.call) {
      if pc.call.Read? { ReadFits(sh.ring, pc.call.count); } else { WriteFits(sh.ring, |pc.call.bytes|); }
    }
  }

  lemma StepKeepsPointers(sh: Shared, pc: Pc, c: Choice)
    requires PcOk(sh.ring, pc) && CallFits(pc) && Bounded(sh.ring) && (sh.sem > 0 ==> Settled(sh.ring))
    ensures Handover(sh.ring, pc, NextRing(sh.ring, pc, c), NextPc(sh, pc, c))
  {
    hide Contents, SpaceFree, ReadCount, WriteCount;
    match pc
    case Guard(call) => GuardKeepsPointers(sh, pc, c);
    case Copy(_, _) => CopyKeepsPointers(sh, pc, c);
    case Advance(_, _) => AdvanceKeepsPointers(sh, pc, c);
    case _ =>
  }

  lemma BystandersStayOutside(pc: Pc, mover: Pc)
    ensures Holds(Bystander(pc, mover)) == Holds(pc)
  {
  }

  lemma StepKeepsExclusive(s: State, t: Tid, c: Choice)
    requires Core(s) && t in s.pcs
    ensures Exclusive(Step(s, t, c))
  {
    hide NextPc, NextRing, NextSem, PcOk, Bystander, Holds, Settled, EffectOf;
    var s', o := Step(s, t, c), Owners(s.pcs);
    forall u | u in s.pcs && u != t ensures Holds(s'.pcs[u]) == Holds(s.pcs[u]) {
      BystandersStayOutside(s.pcs[u], s.pcs[t]);
    }
    SemaphoreBalance(s.sh, s.pcs[t], c);
    assert Owners(s'.pcs) == if Holds(s'.pcs[t]) then o + {t} else o - {t};
  }

  lemma StepKeepsCore(s: State, t: Tid, c: Choice)
    requires Core(s) && t in s.pcs
    ensures Core(Step(s, t, c))
  {
    var s' := Step(s, t, c);
    StepKeepsExclusive(s, t, c);
    StepKeepsPointers(s.sh, s.pcs[t], c);
    forall u | u in s'.pcs ensures CallFits(s'.pcs[u]) && PcOk(s'.sh.ring, s'.pcs[u]) {
      if Holds(s.pcs[t]) { OnlyOwner(s, t); }
      assert u != t ==> s'.pcs[u] == Bystander(s.pcs[u], s.pcs[t]);
    }
    if s'.sh.sem == 1 {
      assert !Holds(s'.pcs[t]) by { if Holds(s'.pcs[t]) { OnlyOwner(s', t); } }
      assert s.sh.sem == 1 ==> !Holds(s.pcs[t]) by { if Holds(s.pcs[t]) { OnlyOwner(s, t); } }
      SemaphoreBalance(s.sh, s.pcs[t], c);
    }
  }

  // ---- refinement to a byte queue ----

  /** A reset has stored `wp` but not yet `rp`. */
  ghost predicate MidReset(s: State) {
    exists t :: t in s.pcs && s.pcs[t].ResetRp?
  }

  /** The abstract queue; a reset takes effect at its first store. */
  ghost function Queue(s: State): seq<Byte>
    requires Core(s)
  {
    if MidReset(s) then [] else Contents(s.sh.ring)
  }

  predicate Applies(e: Effect, q: seq<Byte>, q': seq<Byte>) {
    match e
    case Stutter => q' == q
    case In(bytes) => q' == q + bytes
    case Out(bytes) => q == bytes + q'
    case Clear => q' == []
  }

  lemma CopyOnContents(r: Ring, pc: Pc, c: Choice)
    requires pc.Copy? && PcOk(r, pc)
    ensures Bounded(NextRing(r, pc, c)) && Contents(NextRing(r, pc, c)) == Contents(r)
  {
    if pc.call.Write? {
      WriteFits(r, |pc.call.bytes|);
      FreeAreaIsNotContents(r, pc.call.bytes[..if c.fault then Min(c.kept, pc.n) else pc.n]);
    }
  }

  /** Advancing `rp` over the bytes copied out takes them off the queue. */
  lemma AdvanceRpOnContents(r: Ring, pc: Pc)
    requires pc.Advance? && pc.call.Read? && PcOk(r, pc)
    ensures var r' := r.(rp := r.rp + |pc.moved|);
            Bounded(r') && Contents(r) == pc.moved + Contents(r')
  {
    hide Contents, SpaceFree;
    ReadFits(r, pc.call.count);
    ReadTakesPrefix(r, |pc.moved|);
  }

  /** Advancing `wp` over bytes already stored puts them on the queue. */
  lemma AdvanceWpOnContents(r: Ring, pc: Pc)
    requires pc.Advance? && pc.call.Write? && PcOk(r, pc)
    ensures var r' := r.(wp := r.wp + |pc.moved|);
            Bounded(r') && Contents(r') == Contents(r) + pc.moved
  {
    WriteFits(r, |pc.call.bytes|);
    WriteAppends(r, pc.moved);
    assert Overwrite(r.data, r.wp, pc.moved) == r.data by {
      assert r.data == r.data[..r.wp] + r.data[r.wp..r.wp + |pc.moved|] + r.data[r.wp + |pc.moved|..];
    }
  }

  /** What the contents of the ring become when its owner makes a step. */
  lemma StepOnContents(r: Ring, pc: Pc, c: Choice)
    requires PcOk(r, pc) && Bounded(r) && CallFits(pc) && !pc.ResetWp? && !pc.ResetRp?
    ensures Bounded(NextRing(r, pc, c)) && Applies(EffectOf(pc), Contents(r), Contents(NextRing(r, pc, c)))
  {
    hide Contents;
    match pc
    case Copy(_, _) => CopyOnContents(r, pc, c);
    case Advance(call, _) => if call.Read? { AdvanceRpOnContents(r, pc); } else { AdvanceWpOnContents(r, pc); }
    case Wrap(_, _) => TransientAgreesWithWrapped(r);
    case _ =>
  }

  /** A thread outside the critical section neither starts nor ends a reset's stores. */
  lemma OutsideKeepsMidReset(s: State, t: Tid, c: Choice)
    requires Core(s) && t in s.pcs && !s.pcs[t].ResetWp? && !s.pcs[t].ResetRp?
    ensures MidReset(Step(s, t, c)) <==> MidReset(s)
  {
    var s' := Step(s, t, c);
    if m :| m in s.pcs && s.pcs[m].ResetRp? { assert s'.pcs[m].ResetRp?; }
    if m :| m in s'.pcs && s'.pcs[m].ResetRp? { assert s.pcs[m].ResetRp?; }
  }

  lemma OwnerMidReset(s: State, t: Tid)
    requires Core(s) && t in s.pcs && Holds(s.pcs[t])
    ensures MidReset(s) <==> s.pcs[t].ResetRp?
  {
    OnlyOwner(s, t);
  }

  /** Every step is a step of an abstract byte queue: a reader's advance dequeues exactly the
      bytes it returns, a writer's advance enqueues exactly the bytes it reports, a reset empties
      the queue, and nothing else (a faulting copy, an interrupted wait) changes it. */
  lemma StepRefinesQueue(s: State, t: Tid, c: Choice)
    requires Core(s) && t in s.pcs
    ensures Core(Step(s, t, c))
    ensures Applies(EffectOf(s.pcs[t]), Queue(s), Queue(Step(s, t, c)))
  {
    var s' := Step(s, t, c);
    StepKeepsCore(s, t, c);
    var pc := s.pcs[t];
    if pc.ResetWp? {
      assert s'.pcs[t].ResetRp?;
    } else if pc.ResetRp? {
      assert s'.pcs[t].ResetUp?;
      OwnerMidReset(s', t);
    } else {
      OutsideKeepsMidReset(s, t, c);
      if Holds(pc) { OwnerMidReset(s, t); }
      StepOnContents(s.sh.ring, pc, c);
    }
  }

  /** Bytes delivered, followed by the queue, are the bytes accepted (since the last reset). */
  ghost predicate Fifo(s: State)
    requires Core(s)
  {
    s.sh.accepted == s.sh.delivered + Queue(s)
  }

  lemma EffectKeepsFifo(e: Effect, q: seq<Byte>, q': seq<Byte>, accepted: seq<Byte>, delivered: seq<Byte>)
    requires Applies(e, q, q') && accepted == delivered + q
    ensures var a' := if e.Clear? then [] else if e.In? then accepted + e.bytes else accepted;
            var d' := if e.Clear? then [] else if e.Out? then delivered + e.bytes else delivered;
            a' == d' + q'
  {
  }

  lemma StepKeepsFifo(s: State, t: Tid, c: Choice)
    requires Core(s) && t in s.pcs && Fifo(s)
    ensures Core(Step(s, t, c)) && Fifo(Step(s, t, c))
  {
    StepRefinesQueue(s, t, c);
    EffectKeepsFifo(EffectOf(s.pcs[t]), Queue(s), Queue(Step(s, t, c)), s.sh.accepted, s.sh.delivered);
  }

  // ---- no lost wakeup ----

  /** Some reader (or writer) has moved its pointer and not yet woken the other side. */
  ghost predicate Pending(s: State, readers: bool) {
    exists u :: u in s.pcs && Publishing(s.pcs[u]) && s.pcs[u].call.Read? == readers
  }

  /** A reader asleep for good finds the ring empty; one between its two loads has seen the current
      wp or an rp that does not look like the current wp, or the ring is empty. */
  predicate ReaderOk(r: Ring, pc: Pc) {
    match pc
    case Asleep(Read(_), false) => r.wp == r.rp
    case Loaded(Read(_), false, Wp(at)) => at == r.wp || r.wp == r.rp
    case Loaded(Read(_), false, Rp(at)) => at != r.wp || r.wp == r.rp
    case _ => true
  }

  /** A writer asleep for good finds the ring full; one between its two loads has seen the current
      rp, wrapped or not, or a wp that leaves room, or the ring is full. */
  predicate WriterOk(r: Ring, pc: Pc) {
    match pc
    case Asleep(Write(_), false) => SpaceFree(|r.data|, r.rp, r.wp) == 0
    case Loaded(Write(_), false, Rp(at)) => Wrapped(at, |r.data|) == Wrapped(r.rp, |r.data|)
    case Loaded(Write(_), false, Wp(at)) =>
      SpaceFree(|r.data|, r.rp, at) != 0 || SpaceFree(|r.data|, r.rp, r.wp) == 0
    case _ => true
  }

  ghost predicate ReadersSafe(s: State) {
    Pending(s, false) || MidReset(s) || forall u :: u in s.pcs ==> ReaderOk(s.sh.ring, s.pcs[u])
  }

  ghost predicate WritersSafe(s: State) {
    Pending(s, true) || MidReset(s) || forall u :: u in s.pcs ==> WriterOk(s.sh.ring, s.pcs[u])
  }

  lemma StaysPublishing(sh: Shared, pc: Pc, c: Choice)
    requires PcOk(sh.ring, pc) && sh.ring.wp <= |sh.ring.data| && Publishing(pc) && !pc.Wake?
    ensures var pc' := NextPc(sh, pc, c); Publishing(pc') && pc'.call == pc.call
  {
  }

  lemma WakeReturns(sh: Shared, pc: Pc, c: Choice)
    requires PcOk(sh.ring, pc) && sh.ring.wp <= |sh.ring.data| && pc.Wake?
    ensures NextPc(sh, pc, c).Idle?
  {
  }

  /** Anyone still about to wake a side either stays so, or its wake-up leaves no waiter of that side. */
  lemma PendingStepsOrWakes(s: State, t: Tid, c: Choice, readers: bool)
    requires Core(s) && t in s.pcs && Pending(s, readers)
    ensures var s' := Step(s, t, c);
            || Pending(s', readers)
            || (forall u :: u in s'.pcs ==>
                  if readers then WriterOk(s'.sh.ring, s'.pcs[u]) else ReaderOk(s'.sh.ring, s'.pcs[u]))
  {
    hide NextRing, NextSem, NextPc, Contents, SpaceFree, MustWait, Clip, Condition, Exclusive;
    var s' := Step(s, t, c);
    var w :| w in s.pcs && Publishing(s.pcs[w]) && s.pcs[w].call.Read? == readers;
    if t != w || !s.pcs[w].Wake? {
      if t == w { StaysPublishing(s.sh, s.pcs[w], c); }
      assert Publishing(s'.pcs[w]) && s'.pcs[w].call.Read? == readers;
    } else {
      assert s'.pcs[t].Idle? by { WakeReturns(s.sh, s.pcs[t], c); }
      forall u | u in s'.pcs
        ensures if readers then WriterOk(s'.sh.ring, s'.pcs[u]) else ReaderOk(s'.sh.ring, s'.pcs[u])
      {
        assert u != t ==> s'.pcs[u] == Woken(s.pcs[u], !readers);
      }
    }
  }

  /** One thread's step against one waiting reader, when neither publishes a `wp` nor resets:
      what the reader has seen stays true. */
  lemma StepKeepsReaderOk(s: State, t: Tid, c: Choice, u: Tid)
    requires Core(s) && t in s.pcs && u in s.pcs
    requires !s.pcs[t].ResetWp? && !s.pcs[t].ResetRp?
    requires Publishing(s.pcs[t]) || s.pcs[t].Advance? ==> s.pcs[t].call.Read?
    requires ReaderOk(s.sh.ring, s.pcs[u])
    ensures ReaderOk(Step(s, t, c).sh.ring, Step(s, t, c).pcs[u])
  {
  }

  /** A writer that is about to sleep has tested the current pair of pointers. */
  lemma OwnWriterOk(sh: Shared, pc: Pc, c: Choice)
    requires PcOk(sh.ring, pc) && Bounded(sh.ring) && WriterOk(sh.ring, pc)
    ensures WriterOk(NextRing(sh.ring, pc, c), NextPc(sh, pc, c))
  {
    hide SpaceFree;
    if pc.Loaded? && pc.call.Write? && !pc.woken && pc.seen.Rp? { SameRpSameSpace(sh.ring, pc.seen.at); }
  }

  /** An rp at `end` and one at `start` leave the same space. */
  lemma SameRpSameSpace(r: Ring, at: nat)
    requires Bounded(r) && at <= |r.data| && Wrapped(at, |r.data|) == Wrapped(r.rp, |r.data|)
    ensures SpaceFree(|r.data|, at, r.wp) == 0 <==> SpaceFree(|r.data|, r.rp, r.wp) == 0
  {
  }

  lemma OthersWriterOk(r: Ring, pc: Pc, c: Choice, other: Pc)
    requires PcOk(r, pc) && Bounded(r) && WriterOk(r, other)
    requires !pc.ResetWp? && !pc.ResetRp?
    requires Publishing(pc) || pc.Advance? ==> pc.call.Write?
    ensures WriterOk(NextRing(r, pc, c), Bystander(other, pc))
  {
    hide Contents;
    if pc.Advance? { AdvanceTakesSpace(r, pc); }
    if pc.Wrap? { TransientAgreesWithWrapped(r); }
  }

  /** A writer advances only into free space, which a full ring does not have. */
  lemma AdvanceTakesSpace(r: Ring, pc: Pc)
    requires pc.Advance? && pc.call.Write? && PcOk(r, pc)
    ensures SpaceFree(|r.data|, r.rp, r.wp) != 0
  {
    hide SpaceFree;
  }

  lemma StepKeepsWriterOk(s: State, t: Tid, c: Choice, u: Tid)
    requires Core(s) && t in s.pcs && u in s.pcs
    requires !s.pcs[t].ResetWp? && !s.pcs[t].ResetRp?
    requires Publishing(s.pcs[t]) || s.pcs[t].Advance? ==> s.pcs[t].call.Write?
    requires WriterOk(s.sh.ring, s.pcs[u])
    ensures WriterOk(Step(s, t, c).sh.ring, Step(s, t, c).pcs[u])
  {
    hide NextPc, NextRing, WriterOk, SpaceFree;
    if t == u {
      OwnWriterOk(s.sh, s.pcs[t], c);
    } else {
      OthersWriterOk(s.sh.ring, s.pcs[t], c, s.pcs[u]);
    }
  }

  /** No lost wakeup for readers, resets included. */
  lemma StepKeepsReadersSafe(s: State, t: Tid, c: Choice)
    requires Core(s) && t in s.pcs && ReadersSafe(s)
    ensures ReadersSafe(Step(s, t, c))
  {
    var s', pc := Step(s, t, c), s.pcs[t];
    if Pending(s, false) {
      PendingStepsOrWakes(s, t, c, false);
    } else if pc.ResetRp? {
      assert s'.sh.ring.rp == s'.sh.ring.wp;
    } else if pc.ResetWp? {
      assert s'.pcs[t].ResetRp?;
    } else if MidReset(s) {
      OutsideKeepsMidReset(s, t, c);
    } else if pc.Advance? && pc.call.Write? {
      assert Publishing(s'.pcs[t]) && s'.pcs[t].call.Write?;
    } else {
      forall u | u in s'.pcs ensures ReaderOk(s'.sh.ring, s'.pcs[u]) {
        StepKeepsReaderOk(s, t, c, u);
      }
    }
  }

  /** No lost wakeup for writers, as long as no reset completes. */
  lemma StepKeepsWritersSafe(s: State, t: Tid, c: Choice)
    requires Core(s) && t in s.pcs && WritersSafe(s) && !s.pcs[t].ResetRp?
    ensures WritersSafe(Step(s, t, c))
  {
    var s', pc := Step(s, t, c), s.pcs[t];
    if Pending(s, true) {
      PendingStepsOrWakes(s, t, c, true);
    } else if pc.ResetWp? {
      assert s'.pcs[t].ResetRp?;
    } else if MidReset(s) {
      OutsideKeepsMidReset(s, t, c);
    } else if pc.Advance? && pc.call.Read? {
      assert Publishing(s'.pcs[t]) && s'.pcs[t].call.Read?;
    } else {
      forall u | u in s'.pcs ensures WriterOk(s'.sh.ring, s'.pcs[u]) {
        StepKeepsWriterOk(s, t, c, u);
      }
    }
  }

  /** A reset wakes nobody. It is harmless when some reader is about to wake the writers, or no
      writer is asleep, or between its loads with an rp other than the reset one or a wp that makes
      the emptied ring look full. */
  ghost predicate ResetHarmless(s: State) {
    Pending(s, true) || forall u :: u in s.pcs ==> HarmlessTo(|s.sh.ring.data|, s.pcs[u])
  }

  predicate HarmlessTo(n: nat, pc: Pc) {
    match pc
    case Asleep(Write(_), false) => false
    case Loaded(Write(_), false, Rp(at)) => at == 0 || at == n
    case Loaded(Write(_), false, Wp(at)) => SpaceFree(n, 0, at) != 0
    case _ => true
  }

  lemma HarmlessIsSafe(s: State, t: Tid, c: Choice)
    requires Core(s) && t in s.pcs && s.pcs[t].ResetRp?
    ensures WritersSafe(Step(s, t, c)) <==> ResetHarmless(s)
    ensures !MidReset(Step(s, t, c)) && (Pending(Step(s, t, c), true) <==> Pending(s, true))
  {
    var s' := Step(s, t, c);
    OnlyOwner(s, t);
    assert !MidReset(s') by {
      assert forall u :: u in s'.pcs && u != t ==> s'.pcs[u] == s.pcs[u];
    }
    assert forall u :: u in s.pcs && u != t ==> s'.pcs[u] == s.pcs[u];
    assert Pending(s, true) <==> Pending(s', true) by {
      if u :| u in s.pcs && Publishing(s.pcs[u]) && s.pcs[u].call.Read? == true { assert Publishing(s'.pcs[u]); }
      if u :| u in s'.pcs && Publishing(s'.pcs[u]) && s'.pcs[u].call.Read? == true { assert Publishing(s.pcs[u]); }
    }
    assert forall u :: u in s'.pcs ==> u in s.pcs;
    assert forall u :: u in s.pcs ==> u in s'.pcs;
  }

  /** Nobody can move without a signal or a new call. */
  ghost predicate Quiescent(s: State) {
    forall u :: u in s.pcs ==>
      s.pcs[u].Idle? || (s.pcs[u].Asleep? && !s.pcs[u].woken) || (s.pcs[u].Down? && s.sh.sem == 0)
  }

  /** When everything has come to rest, readers wait only on an empty pipe and writers only on
      a full one; so readers and writers are never asleep at the same time. */
  lemma RestIsJustified(s: State, u: Tid)
    requires Core(s) && ReadersSafe(s) && WritersSafe(s) && Quiescent(s) && u in s.pcs && !s.pcs[u].Idle?
    ensures s.pcs[u].Asleep?
    ensures if s.pcs[u].call.Read? then Contents(s.sh.ring) == []
            else |Contents(s.sh.ring)| == |s.sh.ring.data| - 1
    ensures forall v :: v in s.pcs && !s.pcs[v].Idle? ==>
              s.pcs[v].Asleep? && s.pcs[v].call.Read? == s.pcs[u].call.Read?
  {
    var r := s.sh.ring;
    assert Owners(s.pcs) == {};
    assert ReaderOk(r, s.pcs[u]) && WriterOk(r, s.pcs[u]);
    SpacePlusOccupancy(r);
    forall v | v in s.pcs && !s.pcs[v].Idle?
      ensures s.pcs[v].Asleep? && s.pcs[v].call.Read? == s.pcs[u].call.Read?
    {
      assert ReaderOk(r, s.pcs[v]) && WriterOk(r, s.pcs[v]);
    }
  }

  // ---- runs ----

  ghost predicate Init(s: State) {
    && 2 <= |s.sh.ring.data| < SIZE_T_LIMIT
    && s.sh == Shared(Ring(s.sh.ring.data, 0, 0), 1, [], [])
    && forall t :: t in s.pcs ==> s.pcs[t].Idle?
  }

  type Action = (Tid, Choice)

  /** The state after a run: any schedule of the threads, any calls, signals and faults. */
  ghost function Exec(s: State, run: seq<Action>): (s': State)
    requires Core(s)
    ensures Core(s')
    decreases |run|
  {
    if run == [] then s
    else if run[0].0 !in s.pcs then Exec(s, run[1..])
    else
      StepKeepsCore(s, run[0].0, run[0].1);
      Exec(Step(s, run[0].0, run[0].1), run[1..])
  }

  lemma InitIsCore(s: State)
    requires Init(s)
    ensures Core(s) && Fifo(s) && ReadersSafe(s) && WritersSafe(s) && Quiescent(s)
  {
    assert Owners(s.pcs) == {};
  }

  /** Over every run: first in, first out, and no reader sleeps through a write. */
  lemma {:induction false} RunsAreFifo(s: State, run: seq<Action>)
    requires Core(s) && Fifo(s) && ReadersSafe(s)
    ensures Fifo(Exec(s, run)) && ReadersSafe(Exec(s, run))
    decreases |run|
  {
    if run != [] {
      var (t, c) := run[0];
      if t in s.pcs {
        StepKeepsFifo(s, t, c);
        StepKeepsReadersSafe(s, t, c);
        RunsAreFifo(Step(s, t, c), run[1..]);
      } else {
        RunsAreFifo(s, run[1..]);
      }
    }
  }

  /** Every reset of the run completes while it is harmless. */
  ghost predicate ResetsHarmless(s: State, run: seq<Action>)
    requires Core(s)
    decreases |run|
  {
    run != [] ==>
      var (t, c) := run[0];
      if t !in s.pcs then ResetsHarmless(s, run[1..])
      else
        StepKeepsCore(s, t, c);
        (s.pcs[t].ResetRp? ==> ResetHarmless(s)) && ResetsHarmless(Step(s, t, c), run[1..])
  }

  /** No writer sleeps through a read at any point of a run exactly when all its resets are harmless. */
  lemma {:induction false} WritersSafeExactly(s: State, run: seq<Action>)
    requires Core(s) && WritersSafe(s)
    ensures (forall k :: 0 <= k <= |run| ==> WritersSafe(Exec(s, run[..k]))) <==> ResetsHarmless(s, run)
    decreases |run|
  {
    if run == [] {
      assert run[..0] == [];
    } else {
      var (t, c) := run[0];
      var s' := if t in s.pcs then Step(s, t, c) else s;
      if t in s.pcs {
        StepKeepsCore(s, t, c);
        if s.pcs[t].ResetRp? { HarmlessIsSafe(s, t, c); } else { StepKeepsWritersSafe(s, t, c); }
      }
      assert Exec(s, run[..0]) == s;
      forall k | 0 <= k <= |run[1..]| ensures Exec(s, run[..k + 1]) == Exec(s', run[1..][..k]) {
        assert run[..k + 1][1..] == run[1..][..k];
      }
      if WritersSafe(s') {
        WritersSafeExactly(s', run[1..]);
        if ResetsHarmless(s, run) {
          forall k | 0 <= k <= |run| ensures WritersSafe(Exec(s, run[..k])) {
            if k > 0 { assert Exec(s, run[..k]) == Exec(s', run[1..][..k - 1]); }
          }
        } else {
          var k :| 0 <= k <= |run[1..]| && !WritersSafe(Exec(s', run[1..][..k]));
          assert !WritersSafe(Exec(s, run[..k + 1]));
        }
      } else {
        assert Exec(s', run[1..][..0]) == s';
        assert !WritersSafe(Exec(s, run[..0 + 1]));
      }
    }
  }

  /** Runs in which no thread ever asks for a reset. */
  ghost predicate ResetFree(s: State, run: seq<Action>) {
    && (forall t :: t in s.pcs ==>
          !s.pcs[t].ResetWp? && !s.pcs[t].ResetRp? && !s.pcs[t].ResetUp? && (s.pcs[t].Down? ==> !s.pcs[t].call.Reset?))
    && (forall i :: 0 <= i < |run| ==> !run[i].1.call.Reset?)
  }

  lemma StepKeepsResetFree(s: State, run: seq<Action>)
    requires Core(s) && run != [] && ResetFree(s, run) && run[0].0 in s.pcs
    ensures !s.pcs[run[0].0].ResetRp? && ResetFree(Step(s, run[0].0, run[0].1), run[1..])
  {
    hide NextRing, NextSem, Clip, MustWait, Condition;
    var (t, c) := run[0];
    assert !run[0].1.call.Reset?;
    var s' := Step(s, t, c);
    forall u | u in s'.pcs
      ensures var pc := s'.pcs[u];
              !pc.ResetWp? && !pc.ResetRp? && !pc.ResetUp? && (pc.Down? ==> !pc.call.Reset?)
    {
      assert u != t ==> s'.pcs[u] == Bystander(s.pcs[u], s.pcs[t]);
      assert CallFits(s.pcs[t]);
    }
  }

  lemma {:induction false} ResetFreeIsHarmless(s: State, run: seq<Action>)
    requires Core(s) && ResetFree(s, run)
    ensures ResetsHarmless(s, run) && ResetFree(Exec(s, run), [])
    decreases |run|
  {
    if run != [] {
      var (t, c) := run[0];
      if t in s.pcs {
        StepKeepsCore(s, t, c);
        StepKeepsResetFree(s, run);
        ResetFreeIsHarmless(Step(s, t, c), run[1..]);
      } else {
        ResetFreeIsHarmless(s, run[1..]);
      }
    }
  }

  // ---- when a reset strands a writer ----

  /** Asleep on the readers' (or the writers') queue, with no wake-up under way. */
  predicate SleepsOn(pc: Pc, readers: bool) {
    pc.Asleep? && !pc.woken && (if readers then pc.call.Read? else pc.call.Write?)
  }

  ghost predicate SomeoneAsleep(s: State, readers: bool) {
    exists u :: u in s.pcs && SleepsOn(s.pcs[u], readers)
  }

  ghost predicate WritersAwake(s: State) {
    SomeoneAsleep(s, false) && SpaceFree(|s.sh.ring.data|, s.sh.ring.rp, s.sh.ring.wp) != 0 ==> Pending(s, true)
  }

  /** No thread begins a reset in the run. */
  ghost predicate NoReset(s: State, run: seq<Action>)
    requires Core(s)
    decreases |run|
  {
    run != [] ==>
      var (t, c) := run[0];
      if t !in s.pcs then NoReset(s, run[1..])
      else
        StepKeepsCore(s, t, c);
        !s.pcs[t].ResetWp? && NoReset(Step(s, t, c), run[1..])
  }

  /** However the threads go on, until the next reset no writer sleeps on free space unless a reader
      is about to wake it. */
  ghost predicate AwakeFromHere(s: State)
    requires Core(s)
  {
    forall run :: NoReset(s, run) ==> WritersAwake(Exec(s, run))
  }

  lemma SafeIsAwake(s: State)
    requires Core(s) && WritersSafe(s) && !MidReset(s)
    ensures WritersAwake(s)
  {
    if SomeoneAsleep(s, false) && SpaceFree(|s.sh.ring.data|, s.sh.ring.rp, s.sh.ring.wp) != 0 {
      var u :| u in s.pcs && SleepsOn(s.pcs[u], false);
      assert !WriterOk(s.sh.ring, s.pcs[u]);
    }
  }

  lemma {:induction false} SafeStaysAwake(s: State, run: seq<Action>)
    requires Core(s) && WritersSafe(s) && !MidReset(s) && NoReset(s, run)
    ensures WritersAwake(Exec(s, run))
    decreases |run|
  {
    hide WritersSafe, WritersAwake;
    if run == [] {
      SafeIsAwake(s);
    } else if run[0].0 in s.pcs {
      var (t, c) := run[0];
      StepKeepsCore(s, t, c);
      StepKeepsWritersSafe(s, t, c);
      OutsideKeepsMidReset(s, t, c);
      SafeStaysAwake(Step(s, t, c), run[1..]);
    } else {
      SafeStaysAwake(s, run[1..]);
    }
  }

  lemma AwakeSteps(s: State, t: Tid, c: Choice)
    requires Core(s) && AwakeFromHere(s) && t in s.pcs && !s.pcs[t].ResetWp?
    ensures Core(Step(s, t, c)) && AwakeFromHere(Step(s, t, c))
  {
    StepKeepsCore(s, t, c);
    var s' := Step(s, t, c);
    hide Step, WritersAwake, Core;
    forall run | NoReset(s', run) ensures WritersAwake(Exec(s', run)) {
      var longer := [(t, c)] + run;
      assert longer[0] == (t, c) && longer[1..] == run;
      assert NoReset(s, longer) && Exec(s, longer) == Exec(s', run);
    }
  }

  /** Thread `t` at `pc`, the others as in `pcs`, and nobody ever stranded from there. */
  ghost predicate AwakeAt(sh: Shared, pcs: map<Tid, Pc>, t: Tid, pc: Pc) {
    Core(State(sh, pcs[t := pc])) && AwakeFromHere(State(sh, pcs[t := pc]))
  }

  lemma GoAwake(sh: Shared, pcs: map<Tid, Pc>, t: Tid, pc: Pc, c: Choice)
    requires AwakeAt(sh, pcs, t, pc) && !pc.ResetWp? && !pc.Wake?
    ensures sh.ring.wp <= |sh.ring.data| && PcOk(sh.ring, pc)
    ensures AwakeAt(NextShared(sh, pc, c), pcs, t, NextPc(sh, pc, c))
  {
    hide PcOk, NextPc, NextShared, CallFits, Exclusive, AwakeFromHere;
    var s := State(sh, pcs[t := pc]);
    assert t in s.pcs && s.pcs[t] == pc;
    AwakeSteps(s, t, c);
    assert Step(s, t, c) == State(NextShared(sh, pc, c), pcs[t := NextPc(sh, pc, c)]);
  }

  const CALM: Choice := Choice(Reset, false, false, 0, false)

  /** A waiting writer that decides to sleep on free space, with no reader about to wake it. */
  lemma SleeperIsStranded(s: State, u: Tid)
    requires Core(s) && u in s.pcs && s.pcs[u].Loaded? && s.pcs[u].call.Write? && !s.pcs[u].woken
    requires !Condition(s.sh.ring, s.pcs[u].call, s.pcs[u].seen)
    requires !Pending(s, true) && SpaceFree(|s.sh.ring.data|, s.sh.ring.rp, s.sh.ring.wp) != 0
    ensures !AwakeFromHere(s)
  {
    hide Condition, SpaceFree, Contents;
    var s' := Step(s, u, CALM);
    assert s'.pcs[u] == Asleep(s.pcs[u].call, false) && s'.sh.ring == s.sh.ring;
    assert forall v :: v in s'.pcs && v != u ==> s'.pcs[v] == s.pcs[v];
    assert SleepsOn(s'.pcs[u], false);
    if AwakeFromHere(s) {
      AwakeSteps(s, u, CALM);
      AwakeNow(s');
    }
  }

  /** After its reset, thread `t` writes k bytes, up to the point where it has moved `wp`. */
  lemma WriteAfterReset(sh: Shared, pcs: map<Tid, Pc>, t: Tid, k: nat) returns (sh': Shared, pc: Pc)
    requires AwakeAt(sh, pcs, t, ResetUp) && sh.sem == 0 && k < |sh.ring.data|
    requires sh.ring.rp == 0 == sh.ring.wp
    ensures AwakeAt(sh', pcs, t, pc) && pc.Wrap? && pc.call.Write?
    ensures |sh'.ring.data| == |sh.ring.data| && sh'.ring.rp == 0 && sh'.ring.wp == k
  {
    hide AwakeAt;
    var bytes := seq(k, _ => 0);
    var w, c := Write(bytes), Choice(Write(bytes), false, false, 0, false);
    var free, taken := sh.(sem := 1), sh;
    GoAwake(sh, pcs, t, ResetUp, c);
    GoAwake(free, pcs, t, Idle(Count(0)), c);
    GoAwake(free, pcs, t, Down(w), c);
    assert free.(sem := 0) == sh;
    GoAwake(sh, pcs, t, Guard(w), c);
    assert WriteCount(sh.ring, k) == k && bytes[..k] == bytes;
    GoAwake(sh, pcs, t, Copy(w, k), c);
    var stored := sh.(ring := sh.ring.(data := Overwrite(sh.ring.data, 0, bytes)));
    GoAwake(stored, pcs, t, Advance(w, bytes), c);
    sh', pc := NextShared(stored, Advance(w, bytes), c), Wrap(w, bytes);
  }

  /** A writer between its loads with an old rp is stranded once another thread has written up to it. */
  lemma OldRpIsStranded(s: State, t: Tid, u: Tid)
    requires Core(s) && t in s.pcs && s.pcs[t].ResetUp?
    requires s.sh.ring.rp == 0 == s.sh.ring.wp && !Pending(s, true)
    requires u in s.pcs && s.pcs[u].Loaded? && s.pcs[u].call.Write? && !s.pcs[u].woken
    requires s.pcs[u].seen.Rp? && 0 < s.pcs[u].seen.at < |s.sh.ring.data|
    ensures !AwakeFromHere(s)
  {
    if AwakeFromHere(s) {
      OnlyOwner(s, t);
      assert s.pcs[t := ResetUp] == s.pcs;
      var sh', pc := WriteAfterReset(s.sh, s.pcs, t, s.pcs[u].seen.at - 1);
      var s' := State(sh', s.pcs[t := pc]);
      assert forall v :: v in s'.pcs && v != t ==> s'.pcs[v] == s.pcs[v];
      SleeperIsStranded(s', u);
    }
  }

  /** A reset has, as long as no other one begins, no writer sleep on free space without a reader
      about to wake it, exactly when it was harmless. */
  lemma ResetStrandsWriters(s: State, t: Tid, c: Choice)
    requires Core(s) && t in s.pcs && s.pcs[t].ResetRp?
    ensures Core(Step(s, t, c)) && (AwakeFromHere(Step(s, t, c)) <==> ResetHarmless(s))
  {
    StepKeepsCore(s, t, c);
    HarmlessIsSafe(s, t, c);
    var s' := Step(s, t, c);
    if ResetHarmless(s) {
      SafeIsAwakeFromHere(s');
    } else {
      var u :| u in s.pcs && !HarmlessTo(|s.sh.ring.data|, s.pcs[u]);
      HarmfulReset(s', t, u);
    }
  }

  lemma HarmfulReset(s: State, t: Tid, u: Tid)
    requires Core(s) && t in s.pcs && s.pcs[t].ResetUp?
    requires s.sh.ring.rp == 0 == s.sh.ring.wp && !Pending(s, true)
    requires u in s.pcs && !HarmlessTo(|s.sh.ring.data|, s.pcs[u])
    ensures !AwakeFromHere(s)
  {
    assert PcOk(s.sh.ring, s.pcs[u]);
    if s.pcs[u].Asleep? {
      assert SleepsOn(s.pcs[u], false);
      if AwakeFromHere(s) { AwakeNow(s); }
    } else if s.pcs[u].seen.Rp? {
      OldRpIsStranded(s, t, u);
    } else {
      SleeperIsStranded(s, u);
    }
  }

  /** The first harmful reset of a run. */
  lemma {:induction false} FirstHarm(s: State, run: seq<Action>) returns (k: nat)
    requires Core(s) && !ResetsHarmless(s, run)
    ensures k < |run| && !MidReset(Exec(s, run[..k + 1])) && !AwakeFromHere(Exec(s, run[..k + 1]))
    decreases |run|
  {
    var (t, c) := run[0];
    if t in s.pcs { StepKeepsCore(s, t, c); }
    var s' := if t in s.pcs then Step(s, t, c) else s;
    if t in s.pcs && s.pcs[t].ResetRp? && !ResetHarmless(s) {
      k := 0;
      assert run[..1][1..] == [];
      HarmlessIsSafe(s, t, c);
      ResetStrandsWriters(s, t, c);
    } else {
      var j := FirstHarm(s', run[1..]);
      k := j + 1;
      assert run[..k + 1][1..] == run[1..][..j + 1];
    }
  }

  /** At every point of a run that is not inside a reset, no continuation up to the next reset strands
      a writer, exactly when all the resets of the run are harmless. */
  lemma WritersAwakeExactly(s: State, run: seq<Action>)
    requires Core(s) && WritersSafe(s)
    ensures (forall k :: 0 <= k <= |run| ==> MidReset(Exec(s, run[..k])) || AwakeFromHere(Exec(s, run[..k]))) <==>
            ResetsHarmless(s, run)
  {
    hide WritersSafe, ResetsHarmless, MidReset, AwakeFromHere, Core, Exec;
    if ResetsHarmless(s, run) {
      WritersSafeExactly(s, run);
      forall k | 0 <= k <= |run| && !MidReset(Exec(s, run[..k])) ensures AwakeFromHere(Exec(s, run[..k])) {
        SafeIsAwakeFromHere(Exec(s, run[..k]));
      }
    } else {
      var k := FirstHarm(s, run);
    }
  }

  lemma SafeIsAwakeFromHere(s: State)
    requires Core(s) && WritersSafe(s) && !MidReset(s)
    ensures AwakeFromHere(s)
  {
    forall run | NoReset(s, run) ensures WritersAwake(Exec(s, run)) {
      SafeStaysAwake(s, run);
    }
  }

  lemma AwakeNow(s: State)
    requires Core(s) && AwakeFromHere(s)
    ensures WritersAwake(s)
  {
    assert NoReset(s, []) && Exec(s, []) == s;
  }

  /** The pipe's promises, over every run from a fresh device with any number of threads. */
  lemma PipeIsSafe(s0: State, run: seq<Action>)
    requires Init(s0)
    ensures var s := Exec(s0, run);
            && s.sh.accepted == s.sh.delivered + Queue(s)
            && s.sh.sem + |Owners(s.pcs)| == 1
            && (SomeoneAsleep(s, true) && s.sh.ring.wp != s.sh.ring.rp ==> Pending(s, false) || MidReset(s))
            && (ResetFree(s0, run) ==> WritersAwake(s))
  {
    InitIsCore(s0);
    RunsAreFifo(s0, run);
    var s := Exec(s0, run);
    if SomeoneAsleep(s, true) && s.sh.ring.wp != s.sh.ring.rp {
      var u :| u in s.pcs && SleepsOn(s.pcs[u], true);
      assert !ReaderOk(s.sh.ring, s.pcs[u]);
    }
    if ResetFree(s0, run) {
      ResetFreeIsHarmless(s0, run);
      WritersSafeExactly(s0, run);
      assert run[..|run|] == run && WritersSafe(s);
      assert !MidReset(s);
      SafeIsAwake(s);
    }
  }

  lemma {:induction false} ExecOneMore(s0: State, run: seq<Action>, t: Tid, c: Choice)
    requires Core(s0) && t in Exec(s0, run).pcs
    ensures Exec(s0, run + [(t, c)]) == Step(Exec(s0, run), t, c)
    decreases |run|
  {
    if run != [] {
      assert (run + [(t, c)])[1..] == run[1..] + [(t, c)];
      var (u, d) := run[0];
      if u in s0.pcs {
        StepKeepsCore(s0, u, d);
        ExecOneMore(Step(s0, u, d), run[1..], t, c);
      } else {
        ExecOneMore(s0, run[1..], t, c);
      }
    } else {
      assert (run + [(t, c)])[1..] == [];
    }
  }

  /** A thread that has moved its pointer keeps its call and its bytes until it returns. */
  lemma PublisherReturnsMoved(s: State, t: Tid, c: Choice, u: Tid)
    requires Core(s) && t in s.pcs && u in s.pcs && Publishing(s.pcs[u])
    ensures var pc, pc' := s.pcs[u], Step(s, t, c).pcs[u];
            || (Publishing(pc') && pc'.call == pc.call && pc'.moved == pc.moved)
            || pc' == Idle(Value(pc.call, pc.moved))
  {
    hide NextRing, NextSem, MustWait, Condition, Clip;
  }

  /** What a read took off the queue, or a write put on it, is what the call returns: in every run
      from the moment the pointer moved, the call is still under way with the same bytes, or at some
      point it has returned just them, or their number. */
  lemma {:induction false} MovedIsReturned(s: State, run: seq<Action>, u: Tid)
    requires Core(s) && u in s.pcs && Publishing(s.pcs[u])
    ensures var pc, end := s.pcs[u], Exec(s, run).pcs;
            || (u in end && Publishing(end[u]) && end[u].call == pc.call && end[u].moved == pc.moved)
            || ReturnsIn(s, run, u, Value(pc.call, pc.moved))
    decreases |run|
  {
    hide NextPc, NextShared, Bystander;
    if run != [] {
      var (t, c) := run[0];
      var s' := if t in s.pcs then Step(s, t, c) else s;
      if t in s.pcs {
        StepKeepsCore(s, t, c);
        PublisherReturnsMoved(s, t, c, u);
      }
      var r := Value(s.pcs[u].call, s.pcs[u].moved);
      if s'.pcs[u] == Idle(r) {
        ReturnsLater(s, run, u, r, 0);
      } else {
        MovedIsReturned(s', run[1..], u);
        if ReturnsIn(s', run[1..], u, r) {
          var k :| 0 <= k <= |run[1..]| && HasReturned(Exec(s', run[1..][..k]), u, r);
          ReturnsLater(s, run, u, r, k);
        }
      }
    }
  }

  predicate HasReturned(s: State, u: Tid, r: Result) {
    u in s.pcs && s.pcs[u] == Idle(r)
  }

  ghost predicate ReturnsIn(s: State, run: seq<Action>, u: Tid, r: Result)
    requires Core(s)
  {
    exists k :: 0 <= k <= |run| && HasReturned(Exec(s, run[..k]), u, r)
  }

  lemma ReturnsLater(s: State, run: seq<Action>, u: Tid, r: Result, k: nat)
    requires Core(s) && run != [] && k <= |run| - 1
    requires var (t, c) := run[0];
             var s' := if t in s.pcs then Step(s, t, c) else s;
             Core(s') && HasReturned(Exec(s', run[1..][..k]), u, r)
    ensures ReturnsIn(s, run, u, r)
  {
    hide NextPc, NextShared, Bystander, Core;
    assert run[..k + 1][0] == run[0] && run[..k + 1][1..] == run[1..][..k];
    assert HasReturned(Exec(s, run[..k + 1]), u, r);
  }

  // ---- what calls return is what they moved ----

  datatype Entry = Entry(who: Tid, effect: Effect)

  /** What a run does to the queue, in the order in which the semaphore was held. */
  ghost function Log(s: State, run: seq<Action>): seq<Entry>
    requires Core(s)
    decreases |run|
  {
    if run == [] then []
    else if run[0].0 !in s.pcs then Log(s, run[1..])
    else
      var (t, c) := run[0];
      StepKeepsCore(s, t, c);
      var e := EffectOf(s.pcs[t]);
      if e.Stutter? then Log(Step(s, t, c), run[1..]) else [Entry(t, e)] + Log(Step(s, t, c), run[1..])
  }

  /** What a call that has such an effect must return. */
  function ResultOf(e: Effect): seq<Result> {
    match e
    case Stutter => []
    case In(bytes) => [Count(|bytes|)]
    case Out(bytes) => [Bytes(bytes)]
    case Clear => [Count(0)]
  }

  function ResultsOf(log: seq<Entry>, t: Tid): seq<Result>
    decreases |log|
  {
    if log == [] then []
    else (if log[0].who == t then ResultOf(log[0].effect) else []) + ResultsOf(log[1..], t)
  }

  /** The result a thread has still to return for what it has moved. */
  function Owed(pc: Pc): seq<Result> {
    if Publishing(pc) then [Value(pc.call, pc.moved)]
    else if pc.ResetRp? || pc.ResetUp? then [Count(0)]
    else []
  }

  /** The result with which a step ends a call, unless it is an error. */
  function Success(pc: Pc, pc': Pc): seq<Result> {
    if !pc.Idle? && pc'.Idle? && !pc'.last.EFAULT? && !pc'.last.ERESTARTSYS? then [pc'.last] else []
  }

  /** The successful results of thread `t` in a run, in the order of its calls. */
  ghost function Successes(s: State, run: seq<Action>, t: Tid): seq<Result>
    requires Core(s)
    decreases |run|
  {
    if run == [] then []
    else if run[0].0 !in s.pcs then Successes(s, run[1..], t)
    else
      var (u, c) := run[0];
      StepKeepsCore(s, u, c);
      (if u == t then Success(s.pcs[u], Step(s, u, c).pcs[u]) else []) + Successes(Step(s, u, c), run[1..], t)
  }

  /** A step moves something exactly if a result for it becomes due, and returns only what was due. */
  lemma StepPaysWhatItOwes(s: State, u: Tid, c: Choice, t: Tid)
    requires Core(s) && u in s.pcs && t in s.pcs
    ensures var pc, pc' := s.pcs[t], Step(s, u, c).pcs[t];
            Owed(pc) + (if u == t then ResultOf(EffectOf(pc)) else []) ==
            (if u == t then Success(pc, pc') else []) + Owed(pc')
  {
    hide NextShared, MustWait, Condition, Clip, SpaceFree, Bounded, Exclusive;
    assert CallFits(s.pcs[t]);
  }

  /** Every thread's successful calls return, in order, just what it moved: what it has put into the
      log is what it has returned, and what it owes. So a call that ends in an error moved nothing. */
  lemma {:induction false} CallsReturnWhatTheyMoved(s: State, run: seq<Action>, t: Tid)
    requires Core(s) && t in s.pcs
    ensures t in Exec(s, run).pcs
    ensures Owed(s.pcs[t]) + ResultsOf(Log(s, run), t) == Successes(s, run, t) + Owed(Exec(s, run).pcs[t])
    decreases |run|
  {
    hide Owed, Success, ResultOf, EffectOf, NextPc, NextShared, Bystander;
    if run == [] {
    } else if run[0].0 !in s.pcs {
      CallsReturnWhatTheyMoved(s, run[1..], t);
    } else {
      var (u, c) := run[0];
      StepKeepsCore(s, u, c);
      var s' := Step(s, u, c);
      StepPaysWhatItOwes(s, u, c, t);
      CallsReturnWhatTheyMoved(s', run[1..], t);
      FirstEntry(s, run, t);
      var due := if u == t then ResultOf(EffectOf(s.pcs[t])) else [];
      var paid := if u == t then Success(s.pcs[t], s'.pcs[t]) else [];
      Swap(Owed(s.pcs[t]), due, ResultsOf(Log(s', run[1..]), t), paid, Owed(s'.pcs[t]),
           Successes(s', run[1..], t), Owed(Exec(s', run[1..]).pcs[t]));
    }
  }

  lemma FirstEntry(s: State, run: seq<Action>, t: Tid)
    requires Core(s) && run != [] && run[0].0 in s.pcs
    ensures var (u, c) := run[0];
            Core(Step(s, u, c)) &&
            ResultsOf(Log(s, run), t) ==
            (if u == t then ResultOf(EffectOf(s.pcs[u])) else []) + ResultsOf(Log(Step(s, u, c), run[1..]), t)
  {
    hide EffectOf, NextPc, NextShared, Bystander, Exclusive;
    var (u, c) := run[0];
    StepKeepsCore(s, u, c);
    var rest := Log(Step(s, u, c), run[1..]);
    assert ([Entry(u, EffectOf(s.pcs[u]))] + rest)[1..] == rest;
  }

  /** The bytes written and read since the last reset, according to a log. */
  function WrittenIn(log: seq<Entry>, before: seq<Byte>): seq<Byte>
    decreases |log|
  {
    if log == [] then before
    else
      var e := log[0].effect;
      WrittenIn(log[1..], if e.Clear? then [] else if e.In? then before + e.bytes else before)
  }

  function ReadIn(log: seq<Entry>, before: seq<Byte>): seq<Byte>
    decreases |log|
  {
    if log == [] then before
    else
      var e := log[0].effect;
      ReadIn(log[1..], if e.Clear? then [] else if e.Out? then before + e.bytes else before)
  }

  /** The histories of accepted and delivered bytes are those of the log. */
  lemma {:induction false} HistoriesAreLogged(s: State, run: seq<Action>)
    requires Core(s)
    ensures Exec(s, run).sh.accepted == WrittenIn(Log(s, run), s.sh.accepted)
    ensures Exec(s, run).sh.delivered == ReadIn(Log(s, run), s.sh.delivered)
    decreases |run|
  {
    hide NextPc, NextRing, NextSem, Bystander, EffectOf;
    if run == [] {
    } else if run[0].0 !in s.pcs {
      HistoriesAreLogged(s, run[1..]);
    } else {
      var (u, c) := run[0];
      StepKeepsCore(s, u, c);
      HistoriesAreLogged(Step(s, u, c), run[1..]);
      var rest := Log(Step(s, u, c), run[1..]);
      assert ([Entry(u, EffectOf(s.pcs[u]))] + rest)[1..] == rest;
    }
  }

  // ---- a run that strands a writer ----

  ghost predicate Reachable(s: State) {
    exists s0, run :: Init(s0) && Core(s0) && Exec(s0, run) == s
  }

  lemma ReachableStep(s: State, t: Tid, c: Choice)
    requires Core(s) && Reachable(s) && t in s.pcs
    ensures Reachable(Step(s, t, c))
  {
    var s0, run :| Init(s0) && Core(s0) && Exec(s0, run) == s;
    ExecOneMore(s0, run, t, c);
    assert Exec(s0, run + [(t, c)]) == Step(s, t, c);
  }

  /** Two threads, 0 and 1. */
  function Two(sh: Shared, p0: Pc, p1: Pc): State {
    State(sh, map[0 := p0, 1 := p1])
  }

  ghost predicate At(sh: Shared, p0: Pc, p1: Pc) {
    Core(Two(sh, p0, p1)) && Reachable(Two(sh, p0, p1))
  }

  lemma Go0(sh: Shared, p0: Pc, p1: Pc, c: Choice)
    requires At(sh, p0, p1)
    ensures sh.ring.wp <= |sh.ring.data| && PcOk(sh.ring, p0)
    ensures At(NextShared(sh, p0, c), NextPc(sh, p0, c), Bystander(p1, p0))
  {
    hide PcOk, NextPc, NextShared, Bystander, CallFits, Exclusive;
    var s := Two(sh, p0, p1);
    assert s.pcs[0] == p0 && s.pcs[1] == p1;
    StepKeepsCore(s, 0, c);
    ReachableStep(s, 0, c);
    assert Step(s, 0, c) == Two(NextShared(sh, p0, c), NextPc(sh, p0, c), Bystander(p1, p0));
  }

  lemma Go1(sh: Shared, p0: Pc, p1: Pc, c: Choice)
    requires At(sh, p0, p1)
    ensures sh.ring.wp <= |sh.ring.data| && PcOk(sh.ring, p1)
    ensures At(NextShared(sh, p1, c), Bystander(p0, p1), NextPc(sh, p1, c))
  {
    hide PcOk, NextPc, NextShared, Bystander, CallFits, Exclusive;
    var s := Two(sh, p0, p1);
    assert s.pcs[0] == p0 && s.pcs[1] == p1;
    StepKeepsCore(s, 1, c);
    ReachableStep(s, 1, c);
    assert Step(s, 1, c) == Two(NextShared(sh, p1, c), Bystander(p0, p1), NextPc(sh, p1, c));
  }

  const WRITE_ONE: Choice := Choice(Write([7]), false, false, 0, false)
  const DO_RESET: Choice := Choice(Reset, false, false, 0, false)
  const EMPTY: Shared := Shared(Ring([0, 0], 0, 0), 1, [], [])
  const FULL: Shared := Shared(Ring([7, 0], 0, 1), 1, [7], [])

  lemma StartEmpty()
    ensures At(EMPTY, Idle(Count(0)), Idle(Count(0)))
  {
    var s0 := Two(EMPTY, Idle(Count(0)), Idle(Count(0)));
    InitIsCore(s0);
    assert Exec(s0, []) == s0;
  }

  lemma StoreIntoEmptyPipe()
    ensures At(EMPTY.(sem := 0, ring := Ring([7, 0], 0, 0)), Advance(WRITE_ONE.call, [7]), Idle(Count(0)))
  {
    hide At;
    var w, i := WRITE_ONE.call, Idle(Count(0));
    StartEmpty();
    Go0(EMPTY, i, i, WRITE_ONE);
    Go0(EMPTY, Down(w), i, WRITE_ONE);
    Go0(EMPTY.(sem := 0), Guard(w), i, WRITE_ONE);
    Go0(EMPTY.(sem := 0), Copy(w, 1), i, WRITE_ONE);
    assert WRITE_ONE.call.bytes[..1] == [7] && Overwrite([0, 0], 0, [7]) == [7, 0];
  }

  lemma FillTwoBytePipe()
    ensures At(FULL, Idle(Count(1)), Idle(Count(0)))
  {
    hide At;
    var w, i := WRITE_ONE.call, Idle(Count(0));
    StoreIntoEmptyPipe();
    Go0(EMPTY.(sem := 0, ring := Ring([7, 0], 0, 0)), Advance(w, [7]), i, WRITE_ONE);
    assert EMPTY.accepted + [7] == FULL.accepted;
    Go0(FULL.(sem := 0), Wrap(w, [7]), i, WRITE_ONE);
    Go0(FULL.(sem := 0), Up(w, [7]), i, WRITE_ONE);
    Go0(FULL, Wake(w, [7]), i, WRITE_ONE);
  }

  lemma SleepOnFullPipe()
    ensures At(FULL, Asleep(WRITE_ONE.call, false), Idle(Count(0)))
  {
    hide At;
    var w, i := WRITE_ONE.call, Idle(Count(0));
    FillTwoBytePipe();
    Go0(FULL, Idle(Count(1)), i, WRITE_ONE);
    Go0(FULL, Down(w), i, WRITE_ONE);
    Go0(FULL.(sem := 0), Guard(w), i, WRITE_ONE);
    Go0(FULL, Test(w), i, WRITE_ONE);
    Go0(FULL, Tested(w, Rp(0)), i, WRITE_ONE);
    Go0(FULL, Enqueue(w), i, WRITE_ONE);
    Go0(FULL, Queued(w, false), i, WRITE_ONE);
    Go0(FULL, Loaded(w, false, Rp(0)), i, WRITE_ONE);
  }

  const CLEARED: Shared := FULL.(ring := Ring([7, 0], 0, 0), accepted := [])

  lemma ResetPastSleeper()
    ensures At(CLEARED, Asleep(WRITE_ONE.call, false), Idle(Count(0)))
  {
    hide At;
    var asleep := Asleep(WRITE_ONE.call, false);
    SleepOnFullPipe();
    Go1(FULL, asleep, Idle(Count(0)), DO_RESET);
    Go1(FULL, asleep, Down(Reset), DO_RESET);
    Go1(FULL.(sem := 0), asleep, ResetWp, DO_RESET);
    Go1(CLEARED.(sem := 0), asleep, ResetRp, DO_RESET);
    Go1(CLEARED.(sem := 0), asleep, ResetUp, DO_RESET);
  }

  /** With a reset the writers' promise can fail: one writer fills a two-byte pipe and goes to
      sleep, another thread resets; the pipe is empty, everything is at rest, the writer sleeps on. */
  lemma ResetCanStrandAWriter() returns (s: State)
    ensures Core(s) && Reachable(s)
    ensures Quiescent(s) && SomeoneAsleep(s, false) && !WritersAwake(s) && Queue(s) == []
  {
    ResetPastSleeper();
    s := Two(CLEARED, Asleep(WRITE_ONE.call, false), Idle(Count(0)));
    assert 0 in s.pcs && SleepsOn(s.pcs[0], false);
  }
}
