/**
 What the calls of protect/pipe.c do, from beginning to end, for a thread that runs on its own for
 a while in any state the others have left; and when nothing moves any more.
 */
module PipeCalls {
  import opened Common
  import opened PipeRing
  import opened PipeProtocol

  /** Thread `t` alone takes n steps. */
  ghost function Solo(s: State, t: Tid, c: Choice, n: nat): (s': State)
    requires Core(s) && t in s.pcs
    ensures Core(s') && t in s'.pcs
  {
    if n == 0 then s
    else
      StepKeepsCore(Solo(s, t, c, n - 1), t, c);
      Step(Solo(s, t, c, n - 1), t, c)
  }

  ghost predicate WakesNobody(s: State, t: Tid, s': State) {
    forall u :: u in s.pcs && u != t ==> u in s'.pcs && s'.pcs[u] == s.pcs[u]
  }

  /** The waiters of one side are woken, the other threads left alone. */
  ghost predicate Wakes(s: State, t: Tid, s': State, readers: bool) {
    forall u :: u in s.pcs && u != t ==> u in s'.pcs && s'.pcs[u] == Woken(s.pcs[u], readers)
  }

  /** After n steps the shared state is `sh`, the thread is at `pc`, and nobody else has changed. */
  ghost predicate Goes(s: State, t: Tid, c: Choice, n: nat, sh: Shared, pc: Pc) {
    && Core(s) && t in s.pcs
    && Solo(s, t, c, n).sh == sh && Solo(s, t, c, n).pcs[t] == pc && WakesNobody(s, t, Solo(s, t, c, n))
  }

  lemma Next(s: State, t: Tid, c: Choice, n: nat, sh: Shared, pc: Pc)
    requires Goes(s, t, c, n, sh, pc) && !pc.Wake?
    ensures Bounded(sh.ring) && PcOk(sh.ring, pc)
    ensures Goes(s, t, c, n + 1, NextShared(sh, pc, c), NextPc(sh, pc, c))
  {
    hide NextPc, NextShared, PcOk, CallFits, Exclusive;
    StepKeepsCore(Solo(s, t, c, n), t, c);
    assert PcOk(Solo(s, t, c, n).sh.ring, Solo(s, t, c, n).pcs[t]);
  }

  lemma Arrives(s: State, t: Tid, c: Choice, n: nat, sh: Shared, pc: Pc)
    requires Goes(s, t, c, n, sh, pc)
    ensures var s' := Solo(s, t, c, n); s'.sh == sh && s'.pcs[t] == pc && WakesNobody(s, t, s')
  {
  }

  /** The last step of a read or a write wakes the other side. */
  lemma Finish(s: State, t: Tid, c: Choice, n: nat, sh: Shared, pc: Pc)
    requires Goes(s, t, c, n, sh, pc) && pc.Wake?
    ensures var s' := Solo(s, t, c, n + 1);
            s'.sh == sh && s'.pcs[t] == Idle(Value(pc.call, pc.moved)) && Wakes(s, t, s', !pc.call.Read?)
  {
    hide CallFits, Exclusive;
    StepKeepsCore(Solo(s, t, c, n), t, c);
    assert PcOk(Solo(s, t, c, n).sh.ring, Solo(s, t, c, n).pcs[t]);
  }

  /** wake_up: every thread queued on that side, asleep or about to be, will run on; nobody else is touched. */
  lemma WakeUpExactly(pc: Pc, readers: bool)
    ensures var queued, pc' := pc.Queued? || pc.Loaded? || pc.Asleep?, Woken(pc, readers);
            if queued && pc.call.Read? == readers then
              && pc'.Queued? == pc.Queued? && pc'.Loaded? == pc.Loaded? && pc'.Asleep? == pc.Asleep?
              && pc'.call == pc.call && pc'.woken && (pc.Loaded? ==> pc'.seen == pc.seen)
            else pc' == pc
  {
  }

  // ---- moving bytes ----

  /** A read that has the semaphore to take and bytes to fetch, from its n-th step on. */
  lemma ReadSteps(s: State, t: Tid, c: Choice, n: nat, sh: Shared, count: nat)
    requires Goes(s, t, c, n, sh, Down(Read(count))) && sh.sem == 1 && sh.ring.wp != sh.ring.rp && !c.fault
    ensures Settled(sh.ring) && sh.ring.rp + ReadCount(sh.ring, count) <= |sh.ring.data|
    ensures var k, s' := ReadCount(sh.ring, count), Solo(s, t, c, n + 7);
            && s'.sh.sem == 1 && s'.sh.ring == AfterRead(sh.ring, k)
            && s'.pcs[t] == Idle(Bytes(sh.ring.data[sh.ring.rp..sh.ring.rp + k]))
            && Wakes(s, t, s', false)
  {
    hide Goes, Contents, SpaceFree, ReadCount, WriteCount, Wakes, Solo, Core;
    var call, r := Read(count), sh.ring;
    var k := ReadCount(r, count);
    Next(s, t, c, n, sh, Down(call));
    var sh1 := sh.(sem := 0);
    Next(s, t, c, n + 1, sh1, Guard(call));
    Next(s, t, c, n + 2, sh1, Copy(call, k));
    var moved := r.data[r.rp..r.rp + k];
    Next(s, t, c, n + 3, sh1, Advance(call, moved));
    var sh4 := NextShared(sh1, Advance(call, moved), c);
    Next(s, t, c, n + 4, sh4, Wrap(call, moved));
    var sh5 := sh4.(ring := AfterRead(r, k));
    Next(s, t, c, n + 5, sh5, Up(call, moved));
    Finish(s, t, c, n + 6, sh5.(sem := 1), Wake(call, moved));
  }

  lemma WriteSteps(s: State, t: Tid, c: Choice, n: nat, sh: Shared, bytes: seq<Byte>)
    requires Goes(s, t, c, n, sh, Down(Write(bytes))) && sh.sem == 1 && !c.fault
    requires SpaceFree(|sh.ring.data|, sh.ring.rp, sh.ring.wp) != 0 && sh.ring.wp <= |sh.ring.data|
    ensures var k := WriteCount(sh.ring, |bytes|);
            && Settled(sh.ring) && k <= |bytes| && sh.ring.wp + k <= |sh.ring.data|
            && var s' := Solo(s, t, c, n + 7);
            && s'.sh.sem == 1 && s'.sh.ring == AfterWrite(sh.ring, bytes[..k])
            && s'.pcs[t] == Idle(Count(k)) && Wakes(s, t, s', true)
  {
    hide Goes, Contents, SpaceFree, ReadCount, WriteCount, Wakes, Solo, Core;
    var call, r := Write(bytes), sh.ring;
    var k := WriteCount(r, |bytes|);
    Next(s, t, c, n, sh, Down(call));
    var sh1 := sh.(sem := 0);
    Next(s, t, c, n + 1, sh1, Guard(call));
    Next(s, t, c, n + 2, sh1, Copy(call, k));
    var moved := bytes[..k];
    var sh3 := sh1.(ring := r.(data := Overwrite(r.data, r.wp, moved)));
    Next(s, t, c, n + 3, sh3, Advance(call, moved));
    var sh4 := NextShared(sh3, Advance(call, moved), c);
    Next(s, t, c, n + 4, sh4, Wrap(call, moved));
    var sh5 := sh4.(ring := AfterWrite(r, moved));
    Next(s, t, c, n + 5, sh5, Up(call, moved));
    Finish(s, t, c, n + 6, sh5.(sem := 1), Wake(call, moved));
  }

  /** How a read of `count` bytes ends that moved `b`, in terms of the queue alone: it returns the
      front of the queue, at least a byte if asked for one, and less than asked for only up to the
      end of the queue or of the buffer; and all waiting writers are woken. */
  ghost predicate ReadDone(s: State, t: Tid, s': State, count: nat, b: seq<Byte>) {
    && Bounded(s.sh.ring) && Settled(s'.sh.ring) && s'.sh.sem == 1 && |s'.sh.ring.data| == |s.sh.ring.data|
    && t in s'.pcs && s'.pcs[t] == Idle(Bytes(b)) && Wakes(s, t, s', false)
    && Contents(s.sh.ring) == b + Contents(s'.sh.ring)
    && |b| <= count && (count >= 1 ==> b != [])
    && (|b| < count ==> Contents(s'.sh.ring) == [] || s.sh.ring.rp + |b| == |s.sh.ring.data|)
  }

  /** ... and a write: it appends a prefix of its bytes, and reports its length. */
  ghost predicate WriteDone(s: State, t: Tid, s': State, bytes: seq<Byte>, n: nat) {
    && Bounded(s.sh.ring) && Settled(s'.sh.ring) && s'.sh.sem == 1 && |s'.sh.ring.data| == |s.sh.ring.data|
    && t in s'.pcs && s'.pcs[t] == Idle(Count(n)) && Wakes(s, t, s', true)
    && n <= |bytes| && Contents(s'.sh.ring) == Contents(s.sh.ring) + bytes[..n]
    && (bytes != [] ==> n >= 1)
    && (n < |bytes| ==> |Contents(s'.sh.ring)| == |s.sh.ring.data| - 1 || s.sh.ring.wp + n == |s.sh.ring.data|)
  }

  /** A thread about to make a call, with the semaphore free. */
  ghost predicate Starts(s: State, t: Tid, c: Choice) {
    Core(s) && t in s.pcs && s.pcs[t].Idle? && s.sh.sem == 1
  }

  lemma Begin(s: State, t: Tid, c: Choice)
    requires Core(s) && t in s.pcs
    ensures Goes(s, t, c, 0, s.sh, s.pcs[t]) && Bounded(s.sh.ring) && (s.sh.sem == 1 ==> Settled(s.sh.ring))
  {
  }

  lemma Enter(s: State, t: Tid, c: Choice)
    requires Starts(s, t, c)
    ensures Goes(s, t, c, 1, s.sh, Down(c.call)) && Settled(s.sh.ring)
  {
    hide Goes, Exclusive;
    Begin(s, t, c);
    Next(s, t, c, 0, s.sh, s.pcs[t]);
  }

  lemma ReadFrom(s: State, t: Tid, c: Choice, n: nat, count: nat) returns (b: seq<Byte>)
    requires Goes(s, t, c, n, s.sh, Down(Read(count))) && s.sh.sem == 1 && !c.fault
    requires Settled(s.sh.ring) && Contents(s.sh.ring) != []
    ensures ReadDone(s, t, Solo(s, t, c, n + 7), count, b)
  {
    hide Contents, Goes, Wakes, Bounded, Settled, ReadCount, Solo, Core;
    b := ReadTakes(s.sh.ring, count);
    ReadSteps(s, t, c, n, s.sh, count);
  }

  lemma ReadTakes(r: Ring, count: nat) returns (b: seq<Byte>)
    requires Settled(r) && Contents(r) != []
    ensures var k := ReadCount(r, count);
            && r.wp != r.rp && |r.data| >= 1 && r.rp + k <= |r.data| && b == r.data[r.rp..r.rp + k]
            && Settled(AfterRead(r, k)) && Contents(r) == b + Contents(AfterRead(r, k))
            && |b| <= count && (count >= 1 ==> b != [])
            && (|b| < count ==> Contents(AfterRead(r, k)) == [] || r.rp + |b| == |r.data|)
            && |AfterRead(r, k).data| == |r.data| && Bounded(r)
  {
    hide Contents;
    TransientAgreesWithWrapped(r);
    ReadFits(r, count);
    ReadDequeues(r, count);
    b := r.data[r.rp..r.rp + ReadCount(r, count)];
  }

  lemma WriteFrom(s: State, t: Tid, c: Choice, n: nat, bytes: seq<Byte>) returns (k: nat)
    requires Goes(s, t, c, n, s.sh, Down(Write(bytes))) && s.sh.sem == 1 && !c.fault
    requires Settled(s.sh.ring) && |Contents(s.sh.ring)| < |s.sh.ring.data| - 1
    ensures WriteDone(s, t, Solo(s, t, c, n + 7), bytes, k)
  {
    hide Contents, Goes, Wakes, SpaceFree, Solo, Core;
    SpacePlusOccupancy(s.sh.ring);
    WriteSteps(s, t, c, n, s.sh, bytes);
    WriteFits(s.sh.ring, |bytes|);
    WriteEnqueues(s.sh.ring, bytes);
    k := WriteCount(s.sh.ring, |bytes|);
  }

  /** A thread that runs on its own for a while reads from a pipe that is not empty ... */
  lemma ReadAlone(s: State, t: Tid, c: Choice, count: nat) returns (b: seq<Byte>)
    requires Starts(s, t, c) && c.call == Read(count) && !c.fault
    requires Bounded(s.sh.ring) && Contents(s.sh.ring) != []
    ensures ReadDone(s, t, Solo(s, t, c, 8), count, b)
  {
    hide Goes, Contents, Core, Solo;
    Enter(s, t, c);
    b := ReadFrom(s, t, c, 1, count);
  }

  /** ... and writes to one that is not full. */
  lemma WriteAlone(s: State, t: Tid, c: Choice, bytes: seq<Byte>) returns (k: nat)
    requires Starts(s, t, c) && c.call == Write(bytes) && !c.fault
    requires Bounded(s.sh.ring) && |Contents(s.sh.ring)| < |s.sh.ring.data| - 1
    ensures WriteDone(s, t, Solo(s, t, c, 8), bytes, k)
  {
    hide Goes, Contents, Core, Solo;
    Enter(s, t, c);
    k := WriteFrom(s, t, c, 1, bytes);
  }

  // ---- waiting ----

  /** The thread has something to do: bytes to read, or room to write. */
  predicate Ready(r: Ring, call: Call)
    requires Bounded(r)
  {
    match call
    case Read(_) => Contents(r) != []
    case Write(_) => |Contents(r)| < |r.data| - 1
    case Reset => true
  }

  lemma ReadyOrWaits(r: Ring, call: Call, wpFirst: bool)
    requires Settled(r) && !call.Reset?
    ensures Ready(r, call) <==> !MustWait(r, call)
    ensures Ready(r, call) <==> Condition(r, call, FirstLoad(r, wpFirst))
  {
    SpacePlusOccupancy(r);
  }

  /** With nothing to do, a call takes the semaphore, gives it back and goes to sleep, or returns
      -ERESTARTSYS on a signal; nothing has changed for the others. */
  lemma WaitAlone(s: State, t: Tid, c: Choice, call: Call)
    requires Starts(s, t, c) && c.call == call && !call.Reset? && Settled(s.sh.ring) && !Ready(s.sh.ring, call)
    ensures Goes(s, t, c, 8, s.sh, if c.signal then Idle(ERESTARTSYS) else Asleep(call, false))
  {
    hide Goes, Contents, SpaceFree, MustWait, Condition, Ready, FirstLoad, Solo;
    ReadyOrWaits(s.sh.ring, call, c.wpFirst);
    var sh1 := s.sh.(sem := 0);
    Enter(s, t, c);
    Next(s, t, c, 1, s.sh, Down(call));
    Next(s, t, c, 2, sh1, Guard(call));
    assert sh1.(sem := 1) == s.sh;
    Next(s, t, c, 3, s.sh, Test(call));
    var seen := FirstLoad(s.sh.ring, c.wpFirst);
    Next(s, t, c, 4, s.sh, Tested(call, seen));
    Next(s, t, c, 5, s.sh, Enqueue(call));
    Next(s, t, c, 6, s.sh, Queued(call, false));
    Next(s, t, c, 7, s.sh, Loaded(call, false, seen));
  }

  /** The first of the two tests of wait_event saves the queueing if there is something to do by then. */
  lemma FirstTestAlone(s: State, t: Tid, c: Choice, call: Call)
    requires Core(s) && t in s.pcs && s.pcs[t] == Test(call) && Settled(s.sh.ring) && !call.Reset?
    ensures Goes(s, t, c, 2, s.sh, if Ready(s.sh.ring, call) then Down(call) else Enqueue(call))
  {
    hide Goes, Contents, SpaceFree, Condition, Ready, FirstLoad, Solo;
    ReadyOrWaits(s.sh.ring, call, c.wpFirst);
    Begin(s, t, c);
    Next(s, t, c, 0, s.sh, Test(call));
    Next(s, t, c, 1, s.sh, Tested(call, FirstLoad(s.sh.ring, c.wpFirst)));
  }

  /** A sleeper that was woken, or gets a signal, tests again: with something to do it goes for the
      semaphore, even on a signal; without, it returns -ERESTARTSYS or goes back to sleep. */
  lemma WakeAlone(s: State, t: Tid, c: Choice, call: Call, woken: bool)
    requires Core(s) && t in s.pcs && s.pcs[t] == Asleep(call, woken) && Settled(s.sh.ring)
    requires woken || c.signal
    ensures Goes(s, t, c, 4, s.sh, if Ready(s.sh.ring, call) then Down(call)
                                   else if c.signal then Idle(ERESTARTSYS) else Asleep(call, false))
  {
    hide Goes, Contents, SpaceFree, Condition, Ready, FirstLoad, Solo;
    assert CallFits(s.pcs[t]);
    ReadyOrWaits(s.sh.ring, call, c.wpFirst);
    Begin(s, t, c);
    Next(s, t, c, 0, s.sh, Asleep(call, woken));
    Next(s, t, c, 1, s.sh, Enqueue(call));
    Next(s, t, c, 2, s.sh, Queued(call, false));
    Next(s, t, c, 3, s.sh, Loaded(call, false, FirstLoad(s.sh.ring, c.wpFirst)));
  }

  /** A reader woken while the pipe has bytes, running on its own, returns them ... */
  lemma WokenReaderReads(s: State, t: Tid, c: Choice, count: nat) returns (b: seq<Byte>)
    requires Core(s) && t in s.pcs && s.pcs[t] == Asleep(Read(count), true) && s.sh.sem == 1 && !c.fault
    requires Bounded(s.sh.ring) && Contents(s.sh.ring) != []
    ensures ReadDone(s, t, Solo(s, t, c, 11), count, b)
  {
    hide Goes, Contents, Solo;
    WakeAlone(s, t, c, Read(count), true);
    b := ReadFrom(s, t, c, 4, count);
  }

  /** ... and a writer woken while it has room writes. */
  lemma WokenWriterWrites(s: State, t: Tid, c: Choice, bytes: seq<Byte>) returns (k: nat)
    requires Core(s) && t in s.pcs && s.pcs[t] == Asleep(Write(bytes), true) && s.sh.sem == 1 && !c.fault
    requires Bounded(s.sh.ring) && |Contents(s.sh.ring)| < |s.sh.ring.data| - 1
    ensures WriteDone(s, t, Solo(s, t, c, 11), bytes, k)
  {
    hide Goes, Contents, Solo;
    WakeAlone(s, t, c, Write(bytes), true);
    k := WriteFrom(s, t, c, 4, bytes);
  }

  // ---- the other ends of a call ----

  /** A faulting copy: -EFAULT, the semaphore released, queue and pointers as before, nobody woken. */
  lemma FaultAlone(s: State, t: Tid, c: Choice, call: Call)
    requires Starts(s, t, c) && c.call == call && !call.Reset? && c.fault
    requires Settled(s.sh.ring) && Ready(s.sh.ring, call)
    ensures var s' := Solo(s, t, c, 5);
            && s'.pcs[t] == Idle(EFAULT) && s'.sh.sem == 1 && WakesNobody(s, t, s')
            && s'.sh.ring.rp == s.sh.ring.rp && s'.sh.ring.wp == s.sh.ring.wp && Bounded(s'.sh.ring)
            && Contents(s'.sh.ring) == Contents(s.sh.ring)
  {
    hide Goes, Solo, Core, WakesNobody, Contents, SpaceFree, MustWait, Clip, Ready;
    ReadyOrWaits(s.sh.ring, call, c.wpFirst);
    var sh1, copy := s.sh.(sem := 0), Copy(call, Clip(s.sh.ring, call));
    Enter(s, t, c);
    Next(s, t, c, 1, s.sh, Down(call));
    Next(s, t, c, 2, sh1, Guard(call));
    Next(s, t, c, 3, sh1, copy);
    var sh3 := sh1.(ring := NextRing(s.sh.ring, copy, c));
    Next(s, t, c, 4, sh3, Fail(call));
    CopyOnContents(s.sh.ring, copy, c);
    Arrives(s, t, c, 5, sh3.(sem := 1), Idle(EFAULT));
  }

  /** PIPE_RESET: an empty queue, nobody woken. */
  lemma ResetAlone(s: State, t: Tid, c: Choice)
    requires Starts(s, t, c) && c.call == Reset
    ensures var s' := Solo(s, t, c, 5);
            && s'.pcs[t] == Idle(Count(0)) && s'.sh.sem == 1 && WakesNobody(s, t, s')
            && s'.sh.ring == s.sh.ring.(rp := 0, wp := 0) && Contents(s'.sh.ring) == []
  {
    hide Goes, Solo, Core, WakesNobody;
    var sh1 := s.sh.(sem := 0);
    Enter(s, t, c);
    Next(s, t, c, 1, s.sh, Down(Reset));
    Next(s, t, c, 2, sh1, ResetWp);
    var sh2 := NextShared(sh1, ResetWp, c);
    Next(s, t, c, 3, sh2, ResetRp);
    var sh3 := NextShared(sh2, ResetRp, c);
    Next(s, t, c, 4, sh3, ResetUp);
    Arrives(s, t, c, 5, sh3.(sem := 1), Idle(Count(0)));
  }

  /** Somebody else has the semaphore: wait for it, or return -ERESTARTSYS on a signal. */
  lemma SemaphoreTaken(s: State, t: Tid, c: Choice, call: Call)
    requires Core(s) && t in s.pcs && s.pcs[t] == Down(call) && s.sh.sem == 0
    ensures Goes(s, t, c, 1, s.sh, if c.signal then Idle(ERESTARTSYS) else Down(call))
  {
    Begin(s, t, c);
    Next(s, t, c, 0, s.sh, Down(call));
  }

  // ---- rest ----

  /** Nothing moves any more exactly when every thread between calls is left to start a new one, and
      every other one waits: asleep and not woken, or for the semaphore while somebody has it. */
  lemma QuiescentExactly(s: State)
    requires Core(s)
    ensures Quiescent(s) <==>
              forall t, c: Choice :: t in s.pcs && !s.pcs[t].Idle? && !c.signal ==> Step(s, t, c) == s
  {
    hide NextPc, NextShared, Bystander, Exclusive, PcOk, CallFits;
    forall t, c: Choice | t in s.pcs && !c.signal && !s.pcs[t].Idle?
      ensures Step(s, t, c) == s <==> Stuck(s.sh, s.pcs[t])
    {
      assert PcOk(s.sh.ring, s.pcs[t]);
      StuckExactly(s.sh, s.pcs[t], c);
      if Stuck(s.sh, s.pcs[t]) {
        forall u | u in s.pcs ensures Bystander(s.pcs[u], s.pcs[t]) == s.pcs[u] { OnlyWakersWake(s.pcs[u], s.pcs[t]); }
        assert Step(s, t, c).pcs == s.pcs;
      }
    }
    if forall t, c: Choice :: t in s.pcs && !s.pcs[t].Idle? && !c.signal ==> Step(s, t, c) == s {
      forall u | u in s.pcs && !s.pcs[u].Idle? ensures Stuck(s.sh, s.pcs[u]) {
        assert Step(s, u, CALM) == s;
      }
    }
  }

  predicate Stuck(sh: Shared, pc: Pc) {
    (pc.Asleep? && !pc.woken) || (pc.Down? && sh.sem == 0)
  }

  lemma StuckExactly(sh: Shared, pc: Pc, c: Choice)
    requires PcOk(sh.ring, pc) && Bounded(sh.ring) && !pc.Idle? && !c.signal
    ensures Stuck(sh, pc) ==> NextPc(sh, pc, c) == pc && NextShared(sh, pc, c) == sh
    ensures !Stuck(sh, pc) ==> NextPc(sh, pc, c) != pc
  {
  }

  lemma OnlyWakersWake(pc: Pc, mover: Pc)
    requires mover.Asleep? || mover.Down?
    ensures Bystander(pc, mover) == pc
  {
  }
}
