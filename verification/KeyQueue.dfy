/**
 The keyboard queue of protect/my_spin.c: a list and its count behind a spinlock, filled by an
 interrupt handler and emptied by reading processes, on any number of CPUs. The list is a
 sequence, oldest key first. While a handler is active on a CPU the process on it does not run.
 */
module KeyQueue {
  import opened Common

  type CpuId = nat

  const ENOMEM: int := 12
  const EFAULT: int := 14

  /** Process context: my_read and my_exit. `flags` is the saved interrupt state. */
  datatype Proc =
    | Idle(ret: int)
    | ReadSpin(count: nat, flags: bool)                 // interrupts off, spinning
    | ReadLocked(count: nat, flags: bool)
    | ReadLoop(n: nat, kbuf: seq<Byte>, flags: bool)
    | ReadUnlock(kbuf: seq<Byte>, ret: int, flags: bool)
    | ReadRestore(kbuf: seq<Byte>, ret: int, flags: bool)
    | ReadCopy(kbuf: seq<Byte>)
    | ExitSpin | ExitLocked | ExitUnlock | Exited

  /** The handler on one CPU. */
  datatype Isr = NoIsr | Alloc | Spin(key: Byte) | Add(key: Byte) | Inc | Unlock

  datatype Cpu = Cpu(proc: Proc, isr: Isr, irqOn: bool)

  /** `enqueued` and `dequeued` are histories of the list; `freed` once my_exit has emptied it. */
  datatype Dev = Dev(list: seq<Byte>, count: nat, locked: bool, registered: bool, freed: bool,
                     enqueued: seq<Byte>, dequeued: seq<Byte>)

  datatype State = State(d: Dev, cpus: map<CpuId, Cpu>)

  /** ok: the allocation succeeds, fault: the copy to the user fails, exit: unload instead of read. */
  datatype Choice = Choice(count: nat, key: Byte, ok: bool, fault: bool, exit: bool)

  predicate ProcHolds(p: Proc) {
    p.ReadLocked? || p.ReadLoop? || p.ReadUnlock? || p.ExitLocked? || p.ExitUnlock?
  }

  predicate IsrHolds(i: Isr) {
    i.Add? || i.Inc? || i.Unlock?
  }

  predicate Holds(c: Cpu) {
    ProcHolds(c.proc) || IsrHolds(c.isr)
  }

  predicate Exiting(p: Proc) {
    p.ExitSpin? || p.ExitLocked? || p.ExitUnlock? || p.Exited?
  }

  // ---- steps ----

  /** A step of the process; `quiet` says that no call and no handler is active anywhere, which the
      module's reference count and free_irq wait for before my_exit goes on. */
  function ProcDev(d: Dev, p: Proc, c: Choice, quiet: bool): Dev {
    match p
    case Idle(_) => if c.exit && quiet then d.(registered := false) else d
    case ReadSpin(_, _) => d.(locked := true)
    case ReadLoop(n, kbuf, _) =>
      if |kbuf| < n && d.list != [] then d.(list := d.list[1..], dequeued := d.dequeued + [d.list[0]])
      else if d.count >= n then d.(count := d.count - n)
      else d
    case ReadUnlock(_, _, _) => d.(locked := false)
    case ExitSpin => d.(locked := true)
    case ExitLocked => d.(list := if d.count != 0 then [] else d.list, freed := true)
    case ExitUnlock => d.(locked := false)
    case _ => d
  }

  function ProcNext(d: Dev, p: Proc, irqOn: bool, c: Choice, quiet: bool): Proc {
    match p
    case Idle(_) => if c.exit then (if quiet then ExitSpin else p) else ReadSpin(c.count, irqOn)
    case ReadSpin(count, flags) => if d.locked then p else ReadLocked(count, flags)
    case ReadLocked(count, flags) =>
      var n := Min(count, d.count);
      if n == 0 then ReadUnlock([], 0, flags)
      else if !c.ok then ReadUnlock([], -ENOMEM, flags)
      else ReadLoop(n, [], flags)
    case ReadLoop(n, kbuf, flags) =>
      if |kbuf| < n && d.list != [] then ReadLoop(n, kbuf + [d.list[0]], flags)
      else ReadUnlock(kbuf, n, flags)
    case ReadUnlock(kbuf, ret, flags) => ReadRestore(kbuf, ret, flags)
    case ReadRestore(kbuf, ret, flags) => if ret <= 0 then Idle(ret) else ReadCopy(kbuf)
    case ReadCopy(kbuf) => Idle(if c.fault then -EFAULT else |kbuf|)
    case ExitSpin => if d.locked then p else ExitLocked
    case ExitLocked => ExitUnlock
    case ExitUnlock => Exited
    case Exited => Exited
  }

  /** local_irq_save on the way in, local_irq_restore on the way out. */
  function ProcIrq(p: Proc, irqOn: bool, c: Choice): bool {
    match p
    case Idle(_) => if c.exit then irqOn else false
    case ReadRestore(_, _, flags) => flags
    case _ => irqOn
  }

  /** key_func. */
  function IsrDev(d: Dev, i: Isr): Dev {
    match i
    case Spin(_) => d.(locked := true)
    case Add(key) => d.(list := d.list + [key], enqueued := d.enqueued + [key])
    case Inc => d.(count := d.count + 1)
    case Unlock => d.(locked := false)
    case _ => d
  }

  function IsrNext(d: Dev, i: Isr, c: Choice): Isr {
    match i
    case NoIsr => Alloc
    case Alloc => if c.ok then Spin(c.key) else NoIsr
    case Spin(key) => if d.locked then i else Add(key)
    case Add(_) => Inc
    case Inc => Unlock
    case Unlock => NoIsr
  }

  /** An interrupt is taken on a CPU with interrupts on, while the handler is registered. */
  predicate MayInterrupt(d: Dev, c: Cpu) {
    c.isr.NoIsr? && d.registered && c.irqOn
  }

  ghost predicate Quiet(s: State) {
    s.d.registered && forall u :: u in s.cpus ==> s.cpus[u].isr.NoIsr? && s.cpus[u].proc.Idle?
  }

  /** One step of CPU `u`: of its handler if one is active or an interrupt comes in, else of its process.
      A spinning CPU stays where it is. */
  ghost function Step(s: State, u: CpuId, interrupt: bool, c: Choice): State
    requires u in s.cpus
  {
    var cpu := s.cpus[u];
    if !cpu.isr.NoIsr? || (interrupt && MayInterrupt(s.d, cpu)) then
      var isr := IsrNext(s.d, cpu.isr, c);
      State(if isr == cpu.isr then s.d else IsrDev(s.d, cpu.isr), s.cpus[u := cpu.(isr := isr)])
    else if cpu.proc.Idle? && !s.d.registered then s
    else
      var proc := ProcNext(s.d, cpu.proc, cpu.irqOn, c, Quiet(s));
      State(if proc == cpu.proc then s.d else ProcDev(s.d, cpu.proc, c, Quiet(s)),
            s.cpus[u := Cpu(proc, cpu.isr, ProcIrq(cpu.proc, cpu.irqOn, c))])
  }

  // ---- the invariant ----

  ghost function Holders(cpus: map<CpuId, Cpu>): set<CpuId> {
    set u | u in cpus && Holds(cpus[u])
  }

  /** A process inside the locked region has interrupts off, and so no handler on its CPU; nothing of the
      handler is left once it is unregistered, and only then does my_exit take the lock. */
  predicate CpuOk(d: Dev, c: Cpu) {
    && (ProcHolds(c.proc) || c.proc.ReadSpin? || c.proc.ReadRestore? ==> c.isr.NoIsr?)
    && (c.proc.ReadSpin? || c.proc.ReadLocked? || c.proc.ReadLoop? || c.proc.ReadUnlock? || c.proc.ReadRestore? ==>
          !c.irqOn)
    && (!d.registered ==> c.isr.NoIsr? && (c.proc.Idle? || Exiting(c.proc)))
    && (Exiting(c.proc) ==> !d.registered)
    && (c.proc.ExitSpin? || c.proc.ExitLocked? ==> !d.freed)
    && (c.proc.ReadUnlock? || c.proc.ReadRestore? ==>
          c.proc.ret == |c.proc.kbuf| || (c.proc.ret == -ENOMEM && c.proc.kbuf == []))
  }

  predicate EndsWith(s: seq<Byte>, t: seq<Byte>) {
    |t| <= |s| && s[|s| - |t|..] == t
  }

  /** How far the count is from the list's length while this CPU holds the lock. */
  predicate Skew(d: Dev, c: Cpu) {
    && (match c.proc
        case ReadLoop(n, kbuf, _) =>
          |kbuf| <= n && d.count == |d.list| + |kbuf| && n <= d.count && EndsWith(d.dequeued, kbuf)
        case ReadLocked(_, _) => d.count == |d.list|
        case ReadUnlock(kbuf, ret, _) => d.count == |d.list| && EndsWith(d.dequeued, kbuf)
        case ExitLocked => d.count == |d.list|
        case ExitUnlock => d.freed
        case _ => true)
    && (match c.isr
        case Add(_) => d.count == |d.list|
        case Inc => d.count + 1 == |d.list|
        case Unlock => d.count == |d.list|
        case _ => true)
  }

  /** The module is unloaded once. */
  ghost predicate OneExit(cpus: map<CpuId, Cpu>) {
    forall u, v :: u in cpus && v in cpus && Exiting(cpus[u].proc) && Exiting(cpus[v].proc) ==> u == v
  }

  /** The device-wide part, given that nobody else holds the lock. */
  predicate DevOk(d: Dev) {
    && (!d.locked && !d.freed ==> d.count == |d.list|)
    && (d.freed ==> !d.registered)
    && (!d.freed ==> d.enqueued == d.dequeued + d.list)
  }

  ghost predicate Inv(s: State) {
    && |Holders(s.cpus)| == Bit(s.d.locked)
    && (forall u :: u in s.cpus ==> CpuOk(s.d, s.cpus[u]) && Skew(s.d, s.cpus[u]))
    && OneExit(s.cpus) && DevOk(s.d)
  }

  lemma OnlyHolder(s: State, u: CpuId)
    requires Inv(s) && u in s.cpus && Holds(s.cpus[u])
    ensures s.d.locked && forall v :: v in s.cpus && v != u ==> !Holds(s.cpus[v])
  {
    var h := Holders(s.cpus);
    assert u in h && |h - {u}| == |h| - 1;
    assert h - {u} == {};
    assert forall v :: v in s.cpus && Holds(s.cpus[v]) ==> v in h;
  }

  lemma HoldersUpdate(cpus: map<CpuId, Cpu>, u: CpuId, c: Cpu)
    requires u in cpus
    ensures |Holders(cpus[u := c])| + Bit(Holds(cpus[u])) == |Holders(cpus)| + Bit(Holds(c))
  {
    var h := Holders(cpus);
    assert Holders(cpus[u := c]) == if Holds(c) then h + {u} else h - {u};
  }

  lemma IsrStep(d: Dev, cpu: Cpu, c: Choice)
    requires DevOk(d) && CpuOk(d, cpu) && Skew(d, cpu) && (Holds(cpu) ==> d.locked)
    requires !cpu.isr.NoIsr? || MayInterrupt(d, cpu)
    ensures var isr := IsrNext(d, cpu.isr, c);
            var d', cpu' := if isr == cpu.isr then d else IsrDev(d, cpu.isr), cpu.(isr := isr);
            && DevOk(d') && CpuOk(d', cpu') && Skew(d', cpu') && d'.registered == d.registered
            && Bit(d'.locked) + Bit(Holds(cpu)) == Bit(d.locked) + Bit(Holds(cpu'))
            && (!Holds(cpu) ==> d' == d.(locked := d'.locked))
  {
  }

  lemma ProcStep(d: Dev, cpu: Cpu, c: Choice, quiet: bool)
    requires DevOk(d) && CpuOk(d, cpu) && Skew(d, cpu) && (Holds(cpu) ==> d.locked) && cpu.isr.NoIsr?
    requires cpu.proc.Idle? ==> d.registered
    ensures var proc := ProcNext(d, cpu.proc, cpu.irqOn, c, quiet);
            var d' := if proc == cpu.proc then d else ProcDev(d, cpu.proc, c, quiet);
            var cpu' := Cpu(proc, cpu.isr, ProcIrq(cpu.proc, cpu.irqOn, c));
            && DevOk(d') && CpuOk(d', cpu') && Skew(d', cpu')
            && (d'.registered == d.registered || quiet)
            && (Exiting(proc) ==> Exiting(cpu.proc) || quiet)
            && (d'.freed == d.freed || cpu.proc.ExitLocked?)
            && Bit(d'.locked) + Bit(Holds(cpu)) == Bit(d.locked) + Bit(Holds(cpu'))
            && (!Holds(cpu) ==> d' == d.(locked := d'.locked, registered := d'.registered))
  {
    hide EndsWith;
    if d.list != [] && cpu.proc.ReadLoop? { EndsWithOneMore(d.dequeued, cpu.proc.kbuf, d.list[0]); }
    EndsWithNothing(d.dequeued);
  }

  lemma EndsWithOneMore(s: seq<Byte>, t: seq<Byte>, x: Byte)
    ensures EndsWith(s, t) ==> EndsWith(s + [x], t + [x])
  {
  }

  lemma EndsWithNothing(s: seq<Byte>)
    ensures EndsWith(s, [])
  {
  }

  lemma IsrKeepsInv(s: State, u: CpuId, c: Choice)
    requires Inv(s) && u in s.cpus && (!s.cpus[u].isr.NoIsr? || MayInterrupt(s.d, s.cpus[u]))
    ensures Inv(Step(s, u, true, c))
  {
    hide IsrNext, IsrDev, EndsWith;
    var cpu, s' := s.cpus[u], Step(s, u, true, c);
    if Holds(cpu) { OnlyHolder(s, u); }
    IsrStep(s.d, cpu, c);
    HoldersUpdate(s.cpus, u, s'.cpus[u]);
    forall v | v in s.cpus && v != u ensures CpuOk(s'.d, s.cpus[v]) && Skew(s'.d, s.cpus[v]) {
      assert !Holds(cpu) || !Holds(s.cpus[v]);
    }
  }

  lemma ProcKeepsInv(s: State, u: CpuId, c: Choice)
    requires Inv(s) && u in s.cpus && s.cpus[u].isr.NoIsr? && (s.cpus[u].proc.Idle? ==> s.d.registered)
    ensures Inv(Step(s, u, false, c))
  {
    hide ProcNext, ProcDev, ProcIrq, EndsWith;
    var cpu, s' := s.cpus[u], Step(s, u, false, c);
    if Holds(cpu) { OnlyHolder(s, u); }
    ProcStep(s.d, cpu, c, Quiet(s));
    HoldersUpdate(s.cpus, u, s'.cpus[u]);
    forall v | v in s.cpus && v != u ensures CpuOk(s'.d, s.cpus[v]) && Skew(s'.d, s.cpus[v]) {
      assert !Holds(cpu) || !Holds(s.cpus[v]);
      assert cpu.proc.ExitLocked? ==> !Exiting(s.cpus[v].proc);
    }
  }

  lemma StepKeepsInv(s: State, u: CpuId, interrupt: bool, c: Choice)
    requires Inv(s) && u in s.cpus
    ensures Inv(Step(s, u, interrupt, c))
  {
    hide Inv;
    var cpu := s.cpus[u];
    if !cpu.isr.NoIsr? || (interrupt && MayInterrupt(s.d, cpu)) {
      IsrKeepsInv(s, u, c);
      assert Step(s, u, interrupt, c) == Step(s, u, true, c);
    } else if !(cpu.proc.Idle? && !s.d.registered) {
      ProcKeepsInv(s, u, c);
      assert Step(s, u, interrupt, c) == Step(s, u, false, c);
    }
  }

  // ---- runs ----

  ghost predicate Init(s: State) {
    && s.d == Dev([], 0, false, true, false, [], [])
    && forall u :: u in s.cpus ==> s.cpus[u].proc.Idle? && s.cpus[u].isr.NoIsr?
  }

  type Action = (CpuId, bool, Choice)

  ghost function Run(s: State, run: seq<Action>): State
    decreases |run|
  {
    if run == [] then s
    else if run[0].0 in s.cpus then Run(Step(s, run[0].0, run[0].1, run[0].2), run[1..])
    else Run(s, run[1..])
  }

  lemma {:induction false} RunKeepsInv(s: State, run: seq<Action>)
    requires Inv(s)
    ensures Inv(Run(s, run))
    decreases |run|
  {
    if run != [] {
      var (u, i, c) := run[0];
      if u in s.cpus {
        StepKeepsInv(s, u, i, c);
        RunKeepsInv(Step(s, u, i, c), run[1..]);
      } else {
        RunKeepsInv(s, run[1..]);
      }
    }
  }

  /** Over every run, on any number of CPUs: until my_exit empties the list, the keys dequeued (in lock
      order) followed by the list are the keys the handler enqueued, and whenever the lock is free the
      count is the length of the list; a read about to release the lock has just the keys it dequeued
      and will return their number; and no handler spins on a lock held on its own CPU. */
  lemma QueueIsSafe(s0: State, run: seq<Action>)
    requires Init(s0)
    ensures var s := Run(s0, run);
            && (!s.d.freed ==> s.d.enqueued == s.d.dequeued + s.d.list)
            && (!s.d.freed && !s.d.locked ==> s.d.count == |s.d.list|)
            && (forall u :: u in s.cpus && s.cpus[u].isr.Spin? ==> !ProcHolds(s.cpus[u].proc))
            && (forall u :: u in s.cpus && s.cpus[u].proc.ReadUnlock? ==>
                  EndsWith(s.d.dequeued, s.cpus[u].proc.kbuf)
                  && (s.cpus[u].proc.ret > 0 ==> s.cpus[u].proc.ret == |s.cpus[u].proc.kbuf|))
            && |Holders(s.cpus)| == Bit(s.d.locked)
  {
    assert Holders(s0.cpus) == {};
    RunKeepsInv(s0, run);
  }

  /** How many more steps a lock holder needs at most before it releases the lock. */
  function Left(c: Cpu): nat {
    match c.isr
    case Add(_) => 3
    case Inc => 2
    case Unlock => 1
    case _ =>
      match c.proc
      case ReadLocked(count, _) => count + 3
      case ReadLoop(n, kbuf, _) => if |kbuf| <= n then n - |kbuf| + 2 else 2
      case ReadUnlock(_, _, _) => 1
      case ExitLocked => 2
      case ExitUnlock => 1
      case _ => 0
  }

  /** Whoever holds the lock can run, cannot be interrupted, and comes closer to releasing it with every
      step, so no CPU spins for ever while the holder is scheduled. */
  lemma HolderReleases(s: State, u: CpuId, interrupt: bool, c: Choice)
    requires Inv(s) && u in s.cpus && Holds(s.cpus[u])
    ensures Left(Step(s, u, interrupt, c).cpus[u]) < Left(s.cpus[u])
    ensures Left(Step(s, u, interrupt, c).cpus[u]) == 0 <==> !Step(s, u, interrupt, c).d.locked
  {
    OnlyHolder(s, u);
  }

  // ---- the same device, in place ----

  class KeyDevice {
    var keyList: seq<Byte>
    var keyCount: nat

    ghost predicate Valid()
      reads this
    {
      keyCount == |keyList|
    }

    constructor ()
      ensures Valid() && keyList == []
    {
      keyList, keyCount := [], 0;
    }

    /** key_func under the lock. */
    method Enqueue(key: Byte, allocOk: bool) returns (handled: bool)
      requires Valid()
      modifies this
      ensures Valid() && handled == allocOk
      ensures keyList == old(keyList) + if allocOk then [key] else []
    {
      if !allocOk {
        return false;
      }
      keyList := keyList + [key];
      keyCount := keyCount + 1;
      handled := true;
    }

    /** my_read under the lock: the oldest keys, as many as asked for and there. */
    method Dequeue(count: nat, allocOk: bool) returns (ret: int, kbuf: seq<Byte>)
      requires Valid()
      modifies this
      ensures Valid()
      ensures old(keyList) == kbuf + keyList
      ensures kbuf == [] ==> keyList == old(keyList)
      ensures |kbuf| == if allocOk then Min(count, old(keyCount)) else 0
      ensures ret == if Min(count, old(keyCount)) == 0 then 0 else if allocOk then |kbuf| else -ENOMEM
    {
      var n := Min(count, keyCount);
      kbuf := [];
      if n == 0 {
        return 0, [];
      }
      if !allocOk {
        return -ENOMEM, [];
      }
      for i := 0 to n
        invariant |kbuf| == i && keyCount == i + |keyList| && keyCount == old(keyCount)
        invariant old(keyList) == kbuf + keyList
      {
        kbuf := kbuf + [keyList[0]];
        keyList := keyList[1..];
      }
      keyCount := keyCount - n;
      ret := n;
    }
  }
}
