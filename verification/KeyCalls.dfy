/**
 What the handler, a read and the unloading of protect/my_spin.c do, from beginning to end, on a CPU
 that runs on its own for a while; and, over any run, where every key comes from and goes.
 */
module KeyCalls {
  import opened Common
  import opened KeyQueue

  /** CPU `u` alone takes n steps; `interrupt` lets its interrupts in. */
  ghost function Solo(s: State, u: CpuId, interrupt: bool, c: Choice, n: nat): (s': State)
    requires Inv(s) && u in s.cpus
    ensures Inv(s') && u in s'.cpus
  {
    if n == 0 then s
    else
      StepKeepsInv(Solo(s, u, interrupt, c, n - 1), u, interrupt, c);
      Step(Solo(s, u, interrupt, c, n - 1), u, interrupt, c)
  }

  /** After n steps the device is `d`, this CPU `cpu`, and the others as before. */
  ghost predicate Goes(s: State, u: CpuId, interrupt: bool, c: Choice, n: nat, d: Dev, cpu: Cpu) {
    Inv(s) && u in s.cpus && Solo(s, u, interrupt, c, n) == State(d, s.cpus[u := cpu])
  }

  lemma Begin(s: State, u: CpuId, interrupt: bool, c: Choice)
    requires Inv(s) && u in s.cpus
    ensures Goes(s, u, interrupt, c, 0, s.d, s.cpus[u])
  {
    assert s.cpus[u := s.cpus[u]] == s.cpus;
  }

  lemma NextIsr(s: State, u: CpuId, interrupt: bool, c: Choice, n: nat, d: Dev, cpu: Cpu)
    requires Goes(s, u, interrupt, c, n, d, cpu) && (!cpu.isr.NoIsr? || (interrupt && MayInterrupt(d, cpu)))
    ensures var isr := IsrNext(d, cpu.isr, c);
            Goes(s, u, interrupt, c, n + 1, if isr == cpu.isr then d else IsrDev(d, cpu.isr), cpu.(isr := isr))
  {
    hide Inv, IsrNext, IsrDev;
    var isr := IsrNext(d, cpu.isr, c);
    assert s.cpus[u := cpu][u := cpu.(isr := isr)] == s.cpus[u := cpu.(isr := isr)];
  }

  lemma NextProc(s: State, u: CpuId, c: Choice, n: nat, d: Dev, cpu: Cpu)
    requires Goes(s, u, false, c, n, d, cpu) && cpu.isr.NoIsr? && !cpu.proc.Idle?
    ensures var proc := ProcNext(d, cpu.proc, cpu.irqOn, c, false);
            Goes(s, u, false, c, n + 1, if proc == cpu.proc then d else ProcDev(d, cpu.proc, c, false),
                 Cpu(proc, NoIsr, ProcIrq(cpu.proc, cpu.irqOn, c)))
  {
    hide Inv, Quiet;
    var a := Solo(s, u, false, c, n);
    assert a == State(d, s.cpus[u := cpu]) && a.cpus[u] == cpu;
    var cpu' := Cpu(ProcNext(d, cpu.proc, cpu.irqOn, c, false), NoIsr, ProcIrq(cpu.proc, cpu.irqOn, c));
    QuietDoesNotMatter(d, cpu.proc, cpu.irqOn, c, Quiet(a));
    hide ProcNext, ProcDev, ProcIrq;
    assert s.cpus[u := cpu][u := cpu'] == s.cpus[u := cpu'];
  }

  lemma QuietDoesNotMatter(d: Dev, p: Proc, irqOn: bool, c: Choice, quiet: bool)
    requires !p.Idle?
    ensures ProcNext(d, p, irqOn, c, quiet) == ProcNext(d, p, irqOn, c, false)
    ensures ProcDev(d, p, c, quiet) == ProcDev(d, p, c, false)
  {
  }

  // ---- the handler ----

  /** An interrupt with memory to be had and the lock free puts its key at the end of the list. */
  lemma HandlerAlone(s: State, u: CpuId, c: Choice)
    requires Inv(s) && u in s.cpus && MayInterrupt(s.d, s.cpus[u]) && !s.d.locked && c.ok
    ensures Solo(s, u, true, c, 6) ==
            s.(d := s.d.(list := s.d.list + [c.key], count := s.d.count + 1, enqueued := s.d.enqueued + [c.key]))
  {
    hide Goes, Inv, Solo;
    var d, cpu := s.d, s.cpus[u];
    assert s.cpus[u := cpu] == s.cpus;
    Begin(s, u, true, c);
    NextIsr(s, u, true, c, 0, d, cpu);
    NextIsr(s, u, true, c, 1, d, cpu.(isr := Alloc));
    NextIsr(s, u, true, c, 2, d, cpu.(isr := Spin(c.key)));
    var d3 := d.(locked := true);
    NextIsr(s, u, true, c, 3, d3, cpu.(isr := Add(c.key)));
    var d4 := d3.(list := d.list + [c.key], enqueued := d.enqueued + [c.key]);
    NextIsr(s, u, true, c, 4, d4, cpu.(isr := Inc));
    var d5 := d4.(count := d.count + 1);
    NextIsr(s, u, true, c, 5, d5, cpu.(isr := Unlock));
    Ends(s, u, true, c, 6, d5.(locked := false), cpu);
  }

  lemma Ends(s: State, u: CpuId, interrupt: bool, c: Choice, n: nat, d: Dev, cpu: Cpu)
    requires Goes(s, u, interrupt, c, n, d, cpu)
    ensures Inv(s) && u in s.cpus && Solo(s, u, interrupt, c, n) == State(d, s.cpus[u := cpu])
  {
  }

  /** Without memory the key is dropped and nothing changes; while the lock is taken the handler spins. */
  lemma HandlerWithout(s: State, u: CpuId, c: Choice)
    requires Inv(s) && u in s.cpus && MayInterrupt(s.d, s.cpus[u])
    ensures !c.ok ==> Solo(s, u, true, c, 2) == s
    ensures c.ok && s.d.locked ==>
              var s' := State(s.d, s.cpus[u := s.cpus[u].(isr := Spin(c.key))]);
              Solo(s, u, true, c, 2) == s' && Solo(s, u, true, c, 3) == s'
  {
    hide Goes, Inv, Solo;
    var d, cpu := s.d, s.cpus[u];
    assert s.cpus[u := cpu] == s.cpus && cpu.(isr := NoIsr) == cpu;
    Begin(s, u, true, c);
    NextIsr(s, u, true, c, 0, d, cpu);
    NextIsr(s, u, true, c, 1, d, cpu.(isr := Alloc));
    if !c.ok {
      Ends(s, u, true, c, 2, d, cpu);
    } else if d.locked {
      NextIsr(s, u, true, c, 2, d, cpu.(isr := Spin(c.key)));
      Ends(s, u, true, c, 2, d, cpu.(isr := Spin(c.key)));
      Ends(s, u, true, c, 3, d, cpu.(isr := Spin(c.key)));
    }
  }

  // ---- a read ----

  /** A CPU about to read, the lock free. */
  ghost predicate Reads(s: State, u: CpuId, c: Choice) {
    && Inv(s) && u in s.cpus && s.cpus[u].proc.Idle? && s.cpus[u].isr.NoIsr?
    && s.d.registered && !s.d.locked && !c.exit
  }

  lemma ReaderIs(s: State, u: CpuId, c: Choice)
    requires Reads(s, u, c)
    ensures Inv(s) && u in s.cpus && s.cpus[u].isr.NoIsr? && !s.d.locked
  {
  }

  lemma Lock(s: State, u: CpuId, c: Choice)
    requires Reads(s, u, c)
    ensures s.d.count == |s.d.list|
    ensures Goes(s, u, false, c, 2, s.d.(locked := true), Cpu(ReadLocked(c.count, s.cpus[u].irqOn), NoIsr, false))
  {
    var cpu := s.cpus[u];
    var cpu1 := Cpu(ReadSpin(c.count, cpu.irqOn), NoIsr, false);
    assert Goes(s, u, false, c, 1, s.d, cpu1) by {
      Begin(s, u, false, c);
      assert Solo(s, u, false, c, 1) == Step(s, u, false, c);
    }
    hide Goes, Quiet, Inv;
    NextProc(s, u, c, 1, s.d, cpu1);
    assert s.d.count == |s.d.list| by { CountIsLength(s); }
  }

  lemma CountIsLength(s: State)
    requires Inv(s) && s.d.registered && !s.d.locked
    ensures s.d.count == |s.d.list|
  {
  }

  /** From inside the critical section to the return, interrupts as they were. */
  lemma Release(s: State, u: CpuId, c: Choice, n: nat, d: Dev, kbuf: seq<Byte>, ret: int, flags: bool)
    requires Goes(s, u, false, c, n, d, Cpu(ReadUnlock(kbuf, ret, flags), NoIsr, false))
    ensures ret <= 0 ==> Goes(s, u, false, c, n + 2, d.(locked := false), Cpu(Idle(ret), NoIsr, flags))
    ensures ret > 0 ==> Goes(s, u, false, c, n + 3, d.(locked := false),
                             Cpu(Idle(if c.fault then -14 else |kbuf|), NoIsr, flags))
  {
    hide Goes;
    NextProc(s, u, c, n, d, Cpu(ReadUnlock(kbuf, ret, flags), NoIsr, false));
    var d1 := d.(locked := false);
    NextProc(s, u, c, n + 1, d1, Cpu(ReadRestore(kbuf, ret, flags), NoIsr, false));
    if ret > 0 { NextProc(s, u, c, n + 2, d1, Cpu(ReadCopy(kbuf), NoIsr, flags)); }
  }

  /** The dequeue loop: i of n keys taken. */
  lemma {:induction false} Loop(s: State, u: CpuId, c: Choice, n: nat, i: nat, flags: bool)
    requires Reads(s, u, c) && i <= n <= |s.d.list|
    requires Goes(s, u, false, c, 3, s.d.(locked := true), Cpu(ReadLoop(n, [], flags), NoIsr, false))
    ensures Goes(s, u, false, c, 3 + i,
                 s.d.(locked := true, list := s.d.list[i..], dequeued := s.d.dequeued + s.d.list[..i]),
                 Cpu(ReadLoop(n, s.d.list[..i], flags), NoIsr, false))
  {
    hide Goes, Reads;
    if i == 0 {
      assert s.d.list[0..] == s.d.list && s.d.list[..0] == [] && s.d.dequeued + [] == s.d.dequeued;
    } else {
      Loop(s, u, c, n, i - 1, flags);
      var d := s.d.(locked := true, list := s.d.list[i - 1..], dequeued := s.d.dequeued + s.d.list[..i - 1]);
      NextProc(s, u, c, 3 + i - 1, d, Cpu(ReadLoop(n, s.d.list[..i - 1], flags), NoIsr, false));
      assert d.list[0] == s.d.list[i - 1] && d.list[1..] == s.d.list[i..];
      assert s.d.list[..i] == s.d.list[..i - 1] + [s.d.list[i - 1]];
      assert d.dequeued + [d.list[0]] == s.d.dequeued + s.d.list[..i];
    }
  }

  /** A read with memory to be had takes the oldest keys, as many as asked for and there, and returns
      their number; or -EFAULT, and they are lost. */
  lemma ReadAlone(s: State, u: CpuId, c: Choice)
    requires Reads(s, u, c) && c.ok && c.count > 0 && s.d.list != []
    ensures var n := Min(c.count, |s.d.list|);
            Solo(s, u, false, c, n + 7) ==
            State(s.d.(list := s.d.list[n..], count := s.d.count - n, dequeued := s.d.dequeued + s.d.list[..n]),
                  s.cpus[u := s.cpus[u].(proc := Idle(if c.fault then -14 else n))])
  {
    hide Goes, Reads, Inv, Solo;
    ReaderIs(s, u, c);
    var n, flags, d2 := Min(c.count, |s.d.list|), s.cpus[u].irqOn, s.d.(locked := true);
    Lock(s, u, c);
    var cpu' := s.cpus[u].(proc := Idle(if c.fault then -14 else n));
    NextProc(s, u, c, 2, d2, Cpu(ReadLocked(c.count, flags), NoIsr, false));
    Loop(s, u, c, n, n, flags);
    var kbuf := s.d.list[..n];
    var d := d2.(list := s.d.list[n..], dequeued := s.d.dequeued + kbuf);
    NextProc(s, u, c, 3 + n, d, Cpu(ReadLoop(n, kbuf, flags), NoIsr, false));
    Release(s, u, c, 4 + n, d.(count := s.d.count - n), kbuf, n, flags);
    Ends(s, u, false, c, n + 7, d.(count := s.d.count - n, locked := false), cpu');
  }

  /** A read of nothing, of an empty queue, or without memory takes nothing: 0, or -ENOMEM. */
  lemma ReadNothing(s: State, u: CpuId, c: Choice)
    requires Reads(s, u, c) && (c.count == 0 || s.d.list == [] || !c.ok)
    ensures Solo(s, u, false, c, 5) ==
            s.(cpus := s.cpus[u := s.cpus[u].(proc := Idle(if c.count == 0 || s.d.list == [] then 0 else -12))])
  {
    hide Goes, Reads, Inv, Solo;
    ReaderIs(s, u, c);
    var flags, d2 := s.cpus[u].irqOn, s.d.(locked := true);
    var ret := if c.count == 0 || s.d.list == [] then 0 else -12;
    Lock(s, u, c);
    NextProc(s, u, c, 2, d2, Cpu(ReadLocked(c.count, flags), NoIsr, false));
    Release(s, u, c, 3, d2, [], ret, flags);
    assert d2.(locked := false) == s.d;
    Ends(s, u, false, c, 5, s.d, s.cpus[u].(proc := Idle(ret)));
  }

  /** While the lock is taken a read spins. */
  lemma ReadSpins(s: State, u: CpuId, c: Choice, n: nat, d: Dev, count: nat, flags: bool)
    requires Goes(s, u, false, c, n, d, Cpu(ReadSpin(count, flags), NoIsr, false)) && d.locked
    ensures Goes(s, u, false, c, n + 1, d, Cpu(ReadSpin(count, flags), NoIsr, false))
  {
    hide Goes;
    NextProc(s, u, c, n, d, Cpu(ReadSpin(count, flags), NoIsr, false));
  }

  // ---- unloading ----

  lemma ExitBegins(s: State, u: CpuId, c: Choice)
    requires Inv(s) && u in s.cpus && Quiet(s) && !s.d.locked && c.exit
    ensures s.d.count == |s.d.list| && s.cpus[u].isr.NoIsr?
    ensures Goes(s, u, false, c, 1, s.d.(registered := false), s.cpus[u].(proc := ExitSpin))
  {
    CountIsLength(s);
    Begin(s, u, false, c);
    assert Solo(s, u, false, c, 1) == Step(s, u, false, c);
  }

  /** Once nothing is active the module unloads: no more interrupts, and every key left is freed. */
  lemma ExitAlone(s: State, u: CpuId, c: Choice)
    requires Inv(s) && u in s.cpus && Quiet(s) && !s.d.locked && c.exit
    ensures Solo(s, u, false, c, 4) ==
            State(s.d.(registered := false, freed := true, list := []), s.cpus[u := s.cpus[u].(proc := Exited)])
  {
    hide Goes, Quiet, Inv, Solo;
    ExitBegins(s, u, c);
    var cpu, d1 := s.cpus[u], s.d.(registered := false);
    NextProc(s, u, c, 1, d1, cpu.(proc := ExitSpin));
    var d2 := d1.(locked := true);
    NextProc(s, u, c, 2, d2, cpu.(proc := ExitLocked));
    var d3 := d2.(list := [], freed := true);
    assert ProcDev(d2, ExitLocked, c, false) == d3;
    NextProc(s, u, c, 3, d3, cpu.(proc := ExitUnlock));
    Ends(s, u, false, c, 4, d3.(locked := false), cpu.(proc := Exited));
  }

  /** Until then it waits. */
  lemma ExitWaits(s: State, u: CpuId, c: Choice)
    requires Inv(s) && u in s.cpus && s.cpus[u].proc.Idle? && s.cpus[u].isr.NoIsr? && c.exit && !Quiet(s)
    ensures Step(s, u, false, c) == s
  {
    hide Inv, Quiet;
    assert s.cpus[u := s.cpus[u]] == s.cpus;
  }

  // ---- where every key comes from and goes ----

  /** The key a step takes from the port, with the CPU's interrupt handler. */
  function Taken(cpu: Cpu, c: Choice): seq<Byte> {
    if cpu.isr.Alloc? && c.ok then [c.key] else []
  }

  /** The key it puts on the list. */
  function Added(cpu: Cpu): seq<Byte> {
    if cpu.isr.Add? then [cpu.isr.key] else []
  }

  function InHand(cpu: Cpu): seq<Byte> {
    if cpu.isr.Spin? || cpu.isr.Add? then [cpu.isr.key] else []
  }

  /** The key it takes off the list, the bytes it hands to the user (or fails to copy), and those read
      but not handed over yet. */
  function Removed(d: Dev, cpu: Cpu): seq<Byte> {
    match cpu.proc
    case ReadLoop(n, kbuf, _) => if cpu.isr.NoIsr? && |kbuf| < n && d.list != [] then [d.list[0]] else []
    case _ => []
  }

  function Handed(cpu: Cpu): seq<Byte> {
    if cpu.isr.NoIsr? && cpu.proc.ReadCopy? then cpu.proc.kbuf else []
  }

  function Held(cpu: Cpu): seq<Byte> {
    match cpu.proc
    case ReadLoop(_, kbuf, _) => kbuf
    case ReadUnlock(kbuf, _, _) => kbuf
    case ReadRestore(kbuf, _, _) => kbuf
    case ReadCopy(kbuf) => kbuf
    case _ => []
  }

  /** What a CPU's steps in a run take, add, remove and hand over, in order. */
  datatype Traffic = Traffic(taken: seq<Byte>, added: seq<Byte>, removed: seq<Byte>, handed: seq<Byte>) {
    function Then(t: Traffic): Traffic {
      Traffic(taken + t.taken, added + t.added, removed + t.removed, handed + t.handed)
    }
  }

  /** Of one step; `interrupt` is whether a pending interrupt is let in, in which case the process on the
      CPU does not move. */
  function StepTraffic(d: Dev, cpu: Cpu, interrupt: bool, c: Choice): Traffic {
    if interrupt && MayInterrupt(d, cpu) then Traffic([], [], [], [])
    else Traffic(Taken(cpu, c), Added(cpu), Removed(d, cpu), Handed(cpu))
  }

  /** Of one CPU, or of all. */
  ghost function RunTraffic(s: State, run: seq<Action>, who: set<CpuId>): Traffic
    decreases |run|
  {
    if run == [] then Traffic([], [], [], [])
    else
      var (u, i, c) := run[0];
      if u !in s.cpus then RunTraffic(s, run[1..], who)
      else
        var rest := RunTraffic(Step(s, u, i, c), run[1..], who);
        if u in who then StepTraffic(s.d, s.cpus[u], i, c).Then(rest) else rest
  }

  /** One step: what goes in goes on the list or stays in hand; what comes off the list is handed over or
      still held. */
  lemma StepIsConserved(s: State, u: CpuId, i: bool, c: Choice)
    requires Inv(s) && u in s.cpus
    ensures var s', t := Step(s, u, i, c), StepTraffic(s.d, s.cpus[u], i, c);
            && InHand(s.cpus[u]) + t.taken == t.added + InHand(s'.cpus[u])
            && Held(s.cpus[u]) + t.removed == t.handed + Held(s'.cpus[u])
            && s'.d.enqueued == s.d.enqueued + t.added && s'.d.dequeued == s.d.dequeued + t.removed
  {
    hide ProcNext, ProcDev, ProcIrq, IsrNext, IsrDev, StepTraffic, InHand, Held, DevOk, OneExit, Quiet;
    var d, cpu := s.d, s.cpus[u];
    if !cpu.isr.NoIsr? || (i && MayInterrupt(d, cpu)) {
      IsrIsConserved(d, cpu, i, c);
    } else {
      ProcIsConserved(d, cpu, c, Quiet(s));
      NotInterrupted(d, cpu, i, c);
    }
  }

  lemma NotInterrupted(d: Dev, cpu: Cpu, i: bool, c: Choice)
    requires !(i && MayInterrupt(d, cpu))
    ensures StepTraffic(d, cpu, i, c) == StepTraffic(d, cpu, false, c)
  {
  }

  lemma IsrIsConserved(d: Dev, cpu: Cpu, i: bool, c: Choice)
    requires CpuOk(d, cpu) && (!cpu.isr.NoIsr? || (i && MayInterrupt(d, cpu)))
    ensures var isr, t := IsrNext(d, cpu.isr, c), StepTraffic(d, cpu, i, c);
            var d', cpu' := if isr == cpu.isr then d else IsrDev(d, cpu.isr), cpu.(isr := isr);
            && InHand(cpu) + t.taken == t.added + InHand(cpu') && Held(cpu) + t.removed == t.handed + Held(cpu')
            && d'.enqueued == d.enqueued + t.added && d'.dequeued == d.dequeued + t.removed
  {
  }

  lemma ProcIsConserved(d: Dev, cpu: Cpu, c: Choice, quiet: bool)
    requires CpuOk(d, cpu) && Skew(d, cpu) && cpu.isr.NoIsr?
    ensures var stays, t := cpu.proc.Idle? && !d.registered, StepTraffic(d, cpu, false, c);
            var proc := if stays then cpu.proc else ProcNext(d, cpu.proc, cpu.irqOn, c, quiet);
            var d' := if stays || proc == cpu.proc then d else ProcDev(d, cpu.proc, c, quiet);
            var cpu' := if stays then cpu else Cpu(proc, cpu.isr, ProcIrq(cpu.proc, cpu.irqOn, c));
            && InHand(cpu) + t.taken == t.added + InHand(cpu') && Held(cpu) + t.removed == t.handed + Held(cpu')
            && d'.enqueued == d.enqueued + t.added && d'.dequeued == d.dequeued + t.removed
  {
  }

  /** On every CPU, over every run: the keys its handlers took from the port are, in order, those they
      added and the one in hand; the keys its reads removed are, in order, those handed over and those
      still held. */
  lemma {:induction false} NoKeyIsLost(s: State, run: seq<Action>, u: CpuId)
    requires Inv(s) && u in s.cpus
    ensures var s', t := Run(s, run), RunTraffic(s, run, {u});
            && u in s'.cpus
            && InHand(s.cpus[u]) + t.taken == t.added + InHand(s'.cpus[u])
            && Held(s.cpus[u]) + t.removed == t.handed + Held(s'.cpus[u])
    decreases |run|
  {
    hide InHand, Held, StepTraffic, Step, CpuOk, Skew, OneExit, DevOk;
    if run != [] {
      var (v, i, c) := run[0];
      if v in s.cpus {
        var s1 := Step(s, v, i, c);
        StepKeepsInv(s, v, i, c);
        StepTouchesOne(s, v, i, c);
        NoKeyIsLost(s1, run[1..], u);
        if v == u {
          StepIsConserved(s, u, i, c);
          var t, r, s' := StepTraffic(s.d, s.cpus[u], i, c), RunTraffic(s1, run[1..], {u}), Run(s, run);
          Swap(InHand(s.cpus[u]), t.taken, r.taken, t.added, InHand(s1.cpus[u]), r.added, InHand(s'.cpus[u]));
          Swap(Held(s.cpus[u]), t.removed, r.removed, t.handed, Held(s1.cpus[u]), r.handed, Held(s'.cpus[u]));
        }
      } else {
        NoKeyIsLost(s, run[1..], u);
      }
    }
  }

  lemma StepTouchesOne(s: State, u: CpuId, i: bool, c: Choice)
    requires u in s.cpus
    ensures Step(s, u, i, c).cpus.Keys == s.cpus.Keys
    ensures forall v :: v in s.cpus && v != u ==> Step(s, u, i, c).cpus[v] == s.cpus[v]
  {
    hide Quiet, ProcNext, ProcDev, ProcIrq, IsrNext, IsrDev;
  }

  /** The keys enqueued and dequeued over a run are those that the CPUs added and removed, in the order
      in which they held the lock. */
  lemma {:induction false} HistoriesAreTraffic(s: State, run: seq<Action>)
    requires Inv(s)
    ensures var s', t := Run(s, run), RunTraffic(s, run, s.cpus.Keys);
            s'.d.enqueued == s.d.enqueued + t.added && s'.d.dequeued == s.d.dequeued + t.removed
    decreases |run|
  {
    hide StepTraffic, Step, CpuOk, Skew, OneExit, DevOk;
    if run != [] {
      var (v, i, c) := run[0];
      if v in s.cpus {
        StepKeepsInv(s, v, i, c);
        StepTouchesOne(s, v, i, c);
        StepIsConserved(s, v, i, c);
        HistoriesAreTraffic(Step(s, v, i, c), run[1..]);
      } else {
        HistoriesAreTraffic(s, run[1..]);
      }
    }
  }
}
