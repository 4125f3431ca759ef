/**
 usb/usb-skeleton.c as a transition system over one device: any number of threads and open
 files, the USB core, and the host controller.
 */
module UsbSystem {
  import opened Common
  import opened UsbDevice

  /** pre_reset (lock, drain the writes, kill the read), the reset itself, post_reset; or
      disconnect (give back the minor, clear `interface`, kill the writes, put). The USB core
      holds the device lock over all of it, so the two never overlap. */
  datatype Core = Attached
                | ResetLock | ResetDrain | ResetKillRead | InReset
                | Clear | Kill | CorePut | Gone

  datatype State = State(d: Dev, pcs: map<Tid, Pc>, core: Core)

  datatype Action =
    | Thread(t: Tid, c: Choice)
    | CoreStep(disconnect: bool, pick: BufId)
    | Open(f: FileId)
    | WriteDone(b: BufId, status: int)
    | ReadDone(status: int, payload: seq<Byte>)

  predicate CoreHolds(c: Core) {
    c.ResetDrain? || c.ResetKillRead? || c.InReset?
  }

  predicate Detached(c: Core) {
    c.Kill? || c.CorePut? || c.Gone?
  }

  /** The VFS releases a file once, after its last call returned, and starts no call on it then. */
  ghost predicate MayStart(s: State, t: Tid, start: Start) {
    && start.f in s.d.life.opens
    && (forall u :: u in s.pcs && u != t && FileOf(s.pcs[u]) == Some(start.f) ==>
          !start.StartRelease? && !Releasing(s.pcs[u]))
  }

  function CoreNext(d: Dev, core: Core, disconnect: bool): Core {
    match core
    case Attached => if disconnect then Clear else ResetLock
    case ResetLock => if !d.locked then ResetDrain else core
    case ResetDrain => if d.wr.anchored == {} then ResetKillRead else core
    case ResetKillRead => InReset
    case InReset => Attached
    case Clear => if !d.locked then Kill else core
    case Kill => if d.wr.anchored == {} then CorePut else core
    case CorePut => Gone
    case Gone => Gone
  }

  function KillOne(d: Dev, b: BufId): Dev {
    if b in d.wr.anchored then
      d.(wr := KillWrite(d.wr, b), errors := if b in d.wr.inflight then -ENOENT else d.errors)
    else d
  }

  function CoreDev(d: Dev, core: Core, disconnect: bool, pick: BufId): Dev {
    match core
    case Attached => if disconnect then d.(life := d.life.(registered := false)) else d
    case ResetLock => d.(locked := true)
    case ResetDrain => KillOne(d, pick)
    case ResetKillRead => d.(rd := KillRead(d.rd), errors := if d.rd.urb.Some? then -ENOENT else d.errors)
    case InReset => d.(errors := -EPIPE, locked := false)
    case Clear => if !d.locked then d.(life := d.life.(interface := false)) else d
    case Kill => KillOne(d, pick)
    case CorePut => d.(life := Put(d.life))
    case Gone => d
  }

  ghost function Step(s: State, a: Action): State
    requires Stream(s.d.rd)
  {
    var d := s.d;
    match a
    case Thread(t, c) =>
      if t in s.pcs && (s.pcs[t].Idle? ==> MayStart(s, t, c.start)) then
        State(NextDev(d, s.pcs[t], c), s.pcs[t := NextPc(d, s.pcs[t], c)], s.core)
      else s
    case CoreStep(disconnect, pick) =>
      State(CoreDev(d, s.core, disconnect, pick), s.pcs, CoreNext(d, s.core, disconnect))
    case Open(f) =>
      if d.life.registered && f !in d.life.opens then
        s.(d := d.(life := d.life.(opens := d.life.opens + {f}, kref := d.life.kref + 1)))
      else s
    case WriteDone(b, status) =>
      if b in d.wr.inflight && status <= 0 then
        s.(d := d.(wr := CompleteWrite(d.wr, b), errors := NewErrors(d.errors, status)))
      else s
    case ReadDone(status, payload) =>
      if d.rd.urb.Some? && |payload| <= d.rd.urb.value && status <= 0 then
        s.(d := d.(rd := CompleteRead(d.rd, status, payload), errors := NewErrors(d.errors, status)))
      else s
  }

  // ---- counting threads ----

  ghost function Where(pcs: map<Tid, Pc>, p: Pc -> bool): set<Tid> {
    set t | t in pcs && p(pcs[t])
  }

  ghost function Count(pcs: map<Tid, Pc>, p: Pc -> bool): nat {
    |Where(pcs, p)|
  }

  lemma CountUpdate(pcs: map<Tid, Pc>, t: Tid, pc: Pc, p: Pc -> bool)
    requires t in pcs
    ensures Count(pcs[t := pc], p) + Bit(p(pcs[t])) == Count(pcs, p) + Bit(p(pc))
  {
    var before := Where(pcs, p);
    assert Where(pcs[t := pc], p) == if p(pc) then before + {t} else before - {t};
  }

  /** At most one thread satisfies `p`. */
  lemma CountOne(pcs: map<Tid, Pc>, p: Pc -> bool, t: Tid, u: Tid)
    requires Count(pcs, p) <= 1 && t in pcs && u in pcs && p(pcs[t]) && p(pcs[u])
    ensures t == u
  {
    var w := Where(pcs, p);
    assert |w - {t}| == |w| - 1;
    assert w - {t} == {};
    assert u in w;
  }

  lemma CountSome(pcs: map<Tid, Pc>, p: Pc -> bool, t: Tid)
    requires t in pcs && p(pcs[t])
    ensures Count(pcs, p) >= 1
  {
    assert t in Where(pcs, p);
  }

  ghost function Owns(b: BufId): Pc -> bool {
    (pc: Pc) => OwnedBuffer(pc) == Some(b)
  }

  // ---- the invariant ----

  /** Free permits, permits held by calls, and write URBs in flight make eight; in flight is what has
      been submitted and not completed. */
  ghost predicate Permits(w: WriteSide, pcs: map<Tid, Pc>) {
    && w.permits + Count(pcs, HoldsPermit) + |w.inflight| == WRITES_IN_FLIGHT
    && w.submits == w.completes + |w.inflight|
  }

  /** An allocated DMA buffer has been freed once, or is owned by one thread or one URB; never more. */
  ghost predicate BufferOk(w: WriteSide, pcs: map<Tid, Pc>, b: BufId) {
    w.frees[b] + Bit(b in w.inflight) + Count(pcs, Owns(b)) == Bit(b in w.allocs)
  }

  ghost predicate Mutex(locked: bool, pcs: map<Tid, Pc>, core: Core) {
    Count(pcs, HoldsMutex) + Bit(CoreHolds(core)) == Bit(locked)
  }

  /** Reference count and lifetime. */
  ghost predicate LifeOk(l: Life, core: Core) {
    && l.kref == |l.opens| + Bit(!core.Gone?)
    && l.deleted == Bit(l.kref == 0)
    && (l.registered <==> !Detached(core) && !core.Clear?)
    && (l.interface <==> !Detached(core))
  }

  ghost predicate CoreOk(d: Dev, core: Core) {
    && d.wr.inflight <= d.wr.anchored
    && (core.ResetKillRead? || core.InReset? || core.CorePut? || core.Gone? ==> d.wr.anchored == {})
    && (core.InReset? ==> d.rd.urb.None?)
  }

  /** The read buffer: bytes consumed, then what is left in the buffer, are the bytes received; and
      at most one submitted read has not completed. */
  predicate Stream(d: ReadSide) {
    && d.copied <= d.filled <= |d.buffer|
    && (d.ongoing <==> d.urb.Some?)
    && d.submits == d.completes + Bit(d.ongoing)
    && (d.ongoing ==> d.filled == 0 && d.urb.value <= |d.buffer|)
    && d.received == d.consumed + d.buffer[d.copied..d.filled]
  }

  /** A read call has submitted once more than its own submissions have failed or come back
      empty if one is in flight or has data left, and as often otherwise. */
  predicate Tally(d: ReadSide, r: Rd) {
    r.subs == 0 ||
    (r.base <= d.bad && r.subs == d.bad - r.base + if d.ongoing || d.copied < d.filled then 1 else 0)
  }

  predicate RetriesBounded(d: ReadSide, r: Rd) {
    r.subs == 0 || (r.base <= d.bad && r.subs <= d.bad - r.base + 1)
  }

  predicate PcOk(d: Dev, pc: Pc) {
    match pc
    case ReadRetry(r) => d.life.interface && Tally(d.rd, r)
    case ReadWait(r) => d.life.interface && Tally(d.rd, r)
    case ReadErrors(r) => d.life.interface && Tally(d.rd, r) && !d.rd.ongoing
    case ReadClear(r, _) => d.life.interface && Tally(d.rd, r) && !d.rd.ongoing
    case ReadBuffer(r) => d.life.interface && Tally(d.rd, r) && !d.rd.ongoing
    case ReadLock(r) => r.subs == 0
    case ReadCheck(r) => r.subs == 0
    case ReadUnlock(r, _) => RetriesBounded(d.rd, r)
    case FlushKillRead(_) => d.wr.anchored == {}
    case FlushErrors(_) => d.wr.anchored == {} && d.rd.urb.None?
    case _ => true
  }

  ghost predicate FilesOk(opens: set<FileId>, pcs: map<Tid, Pc>) {
    && (forall t :: t in pcs && FileOf(pcs[t]).Some? ==> FileOf(pcs[t]).value in opens)
    && (forall t, u :: t in pcs && u in pcs && t != u && Releasing(pcs[t]) ==> FileOf(pcs[u]) != FileOf(pcs[t]))
  }

  ghost predicate PcsOk(s: State) {
    forall t :: t in s.pcs ==> PcOk(s.d, s.pcs[t])
  }

  ghost predicate Inv(s: State) {
    && Stream(s.d.rd) && Permits(s.d.wr, s.pcs) && (forall b :: BufferOk(s.d.wr, s.pcs, b))
    && Mutex(s.d.locked, s.pcs, s.core) && LifeOk(s.d.life, s.core) && CoreOk(s.d, s.core)
    && FilesOk(s.d.life.opens, s.pcs) && PcsOk(s)
  }

  // ---- what one thread's step does, locally ----

  /** Handing out the next `n` bytes of the buffer. */
  lemma HandOutKeepsStream(d: ReadSide, n: nat)
    requires Stream(d) && !d.ongoing && n <= d.filled - d.copied
    ensures Stream(d.(copied := d.copied + n, consumed := d.consumed + d.buffer[d.copied..d.copied + n]))
  {
    var left, rest := d.buffer[d.copied..d.copied + n], d.buffer[d.copied + n..d.filled];
    assert d.buffer[d.copied..d.filled] == left + rest;
    assert d.consumed + (left + rest) == (d.consumed + left) + rest;
  }

  /** A read is started only when the buffer is used up. */
  lemma DoReadIoKeepsStream(d: ReadSide, count: nat, ok: bool)
    requires Stream(d) && !d.ongoing && d.copied == d.filled
    ensures Stream(DoReadIo(d, count, ok))
  {
    assert d.received == d.consumed;
  }

  lemma BufferKeepsStream(d: ReadSide, count: nat, ok: bool)
    requires Stream(d) && !d.ongoing
    ensures Stream(ReadFromBuffer(d, count, ok))
  {
    hide DoReadIo;
    var n := Min(d.filled - d.copied, count);
    HandOutKeepsStream(d, n);
    var d' := d.(copied := d.copied + n, consumed := d.consumed + d.buffer[d.copied..d.copied + n]);
    if d.copied == d.filled {
      DoReadIoKeepsStream(d, count, ok);
    } else if n < count {
      DoReadIoKeepsStream(d', count - n, ok);
    }
  }

  /** What skel_read returns is what it consumed; a faulting copy consumes a chunk and returns none of it. */
  lemma ReadReturnsItsChunk(d: Dev, pc: Pc, c: Choice)
    requires Stream(d.rd) && PcOk(d, pc) && pc.ReadBuffer? && pc.r.count > 0
    ensures var rd', pc' := NextRead(d.rd, pc, c), NextPc(d, pc, c);
            && (pc'.ReadRetry? ==> rd'.consumed == d.rd.consumed && rd'.ongoing)
            && (pc'.ReadUnlock? && pc'.rv >= 0 && c.status <= 0 ==>
                  pc'.rv > 0 && |rd'.consumed| == |d.rd.consumed| + pc'.rv)
            && (d.rd.copied < d.rd.filled ==>
                  pc'.ReadUnlock? && d.rd.consumed < rd'.consumed && (pc'.rv == -EFAULT <==> c.signal))
  {
    hide Stream;
    assert d.rd.copied <= d.rd.filled <= |d.rd.buffer| by { StreamBounds(d.rd); }
    var n := Min(d.rd.filled - d.rd.copied, pc.r.count);
    assert |d.rd.buffer[d.rd.copied..d.rd.copied + n]| == n;
  }

  lemma StreamBounds(d: ReadSide)
    requires Stream(d)
    ensures d.copied <= d.filled <= |d.buffer|
  {
  }

  lemma CompletionKeepsStream(d: ReadSide, status: int, payload: seq<Byte>)
    requires Stream(d) && d.urb.Some? && |payload| <= d.urb.value
    ensures Stream(CompleteRead(d, status, payload))
  {
  }

  /** A completed read delivers its payload, all of it and nothing else, if it succeeded, and nothing
      otherwise; the next read finds the URB idle. */
  lemma CompletionDelivers(d: ReadSide, status: int, payload: seq<Byte>)
    requires Stream(d) && d.urb.Some? && |payload| <= d.urb.value
    ensures var d', got := CompleteRead(d, status, payload), if status == 0 then payload else [];
            && d'.received == d.received + got && d'.buffer[d'.copied..d'.filled] == got
            && d'.consumed == d.consumed && !d'.ongoing && d'.urb.None?
            && d'.completes == d.completes + 1 && d'.submits == d.submits
            && d'.bad == if got == [] then d.bad + 1 else d.bad
  {
  }

  lemma ThreadKeepsStream(d: Dev, pc: Pc, c: Choice)
    requires Stream(d.rd) && PcOk(d, pc)
    ensures Stream(NextRead(d.rd, pc, c))
  {
    match pc
    case ReadBuffer(r) => BufferKeepsStream(d.rd, r.count, c.ok);
    case FlushKillRead(_) => if d.rd.urb.Some? { CompletionKeepsStream(d.rd, -ENOENT, []); }
    case _ =>
  }

  lemma ThreadKeepsPc(d: Dev, pc: Pc, c: Choice)
    requires Stream(d.rd) && PcOk(d, pc)
    ensures PcOk(NextDev(d, pc, c), NextPc(d, pc, c))
  {
  }

  lemma ThreadMutex(d: Dev, pc: Pc, c: Choice)
    requires HoldsMutex(pc) ==> d.locked
    ensures Bit(NextLocked(d, pc)) + Bit(HoldsMutex(pc)) == Bit(d.locked) + Bit(HoldsMutex(NextPc(d, pc, c)))
  {
  }

  predicate Submits(d: Dev, pc: Pc, c: Choice) {
    pc.WriteSubmit? && d.life.interface && c.ok
  }

  predicate Cancels(d: Dev, pc: Pc, c: Choice) {
    pc.FlushDrain? && c.buf in d.wr.inflight && c.buf in d.wr.anchored
  }

  lemma ThreadInflight(d: Dev, pc: Pc, c: Choice)
    requires OwnedBuffer(pc).Some? ==> OwnedBuffer(pc).value !in d.wr.inflight
    ensures |NextWrite(d, pc, c).inflight| + Bit(Cancels(d, pc, c)) == |d.wr.inflight| + Bit(Submits(d, pc, c))
    ensures NextWrite(d, pc, c).submits == d.wr.submits + Bit(Submits(d, pc, c))
    ensures NextWrite(d, pc, c).completes == d.wr.completes + Bit(Cancels(d, pc, c))
  {
  }

  /** Permits move between the semaphore, the calls and the URBs; none appears or gets lost. */
  lemma ThreadPermits(d: Dev, pc: Pc, c: Choice)
    requires OwnedBuffer(pc).Some? ==> OwnedBuffer(pc).value !in d.wr.inflight
    ensures var w, w' := d.wr, NextWrite(d, pc, c);
            w'.permits + Bit(HoldsPermit(NextPc(d, pc, c))) + |w'.inflight| ==
            w.permits + Bit(HoldsPermit(pc)) + |w.inflight|
            && w'.submits + w.completes + |w.inflight| == w'.completes + w.submits + |w'.inflight|
  {
    hide NextWrite, NextPc, OwnedBuffer, HoldsPermit;
    ThreadInflight(d, pc, c);
    PermitMoves(d, pc, c);
  }

  /** A call gives its permit up to the semaphore or to the URB it submits. */
  lemma PermitMoves(d: Dev, pc: Pc, c: Choice)
    ensures NextWrite(d, pc, c).permits + Bit(HoldsPermit(NextPc(d, pc, c))) + Bit(Submits(d, pc, c)) ==
            d.wr.permits + Bit(HoldsPermit(pc)) + Bit(Cancels(d, pc, c))
  {
  }

  lemma ThreadBuffers(d: Dev, pc: Pc, c: Choice, b: BufId)
    requires OwnedBuffer(pc).Some? ==> OwnedBuffer(pc).value !in d.wr.inflight
    ensures var w, w' := d.wr, NextWrite(d, pc, c);
            w'.frees[b] + Bit(b in w'.inflight) + Bit(OwnedBuffer(NextPc(d, pc, c)) == Some(b)) + Bit(b in w.allocs)
            == w.frees[b] + Bit(b in w.inflight) + Bit(OwnedBuffer(pc) == Some(b)) + Bit(b in w'.allocs)
  {
  }

  /** What a step outside io_mutex leaves alone for whoever holds it. */
  predicate Protected(d: Dev, d': Dev) {
    d'.life.interface == d.life.interface && d'.rd == d.rd && d'.wr.anchored <= d.wr.anchored
  }

  lemma OutsideIsProtected(d: Dev, pc: Pc, c: Choice)
    requires Stream(d.rd) && !HoldsMutex(pc)
    ensures Protected(d, NextDev(d, pc, c))
  {
  }

  /** The anchor grows only by a submission, made inside io_mutex with the interface present. */
  lemma AnchorGrowsOnlyBySubmit(d: Dev, pc: Pc, c: Choice)
    requires OwnedBuffer(pc).Some? ==> OwnedBuffer(pc).value !in d.wr.inflight
    requires d.wr.inflight <= d.wr.anchored
    ensures var w' := NextWrite(d, pc, c);
            && w'.inflight <= w'.anchored
            && (w'.anchored <= d.wr.anchored || (pc.WriteSubmit? && d.life.interface))
            && (w'.inflight <= d.wr.inflight || (pc.WriteSubmit? && d.life.interface))
            && (w'.submits == d.wr.submits || (pc.WriteSubmit? && d.life.interface))
  {
  }

  lemma OutsiderKeepsPcOk(d: Dev, d': Dev, pc: Pc)
    requires PcOk(d, pc) && (!HoldsMutex(pc) || Protected(d, d'))
    ensures PcOk(d', pc)
  {
  }

  // ---- steps of the whole system ----

  lemma OwnerIsNotInFlight(s: State, t: Tid)
    requires Inv(s) && t in s.pcs && OwnedBuffer(s.pcs[t]).Some?
    ensures OwnedBuffer(s.pcs[t]).value !in s.d.wr.inflight
  {
    var b := OwnedBuffer(s.pcs[t]).value;
    assert BufferOk(s.d.wr, s.pcs, b);
    CountSome(s.pcs, Owns(b), t);
  }

  lemma MutexHolder(s: State, t: Tid)
    requires Inv(s) && t in s.pcs && HoldsMutex(s.pcs[t])
    ensures s.d.locked && !CoreHolds(s.core)
    ensures forall u :: u in s.pcs && u != t ==> !HoldsMutex(s.pcs[u])
  {
    CountSome(s.pcs, HoldsMutex, t);
    forall u | u in s.pcs && u != t ensures !HoldsMutex(s.pcs[u]) {
      if HoldsMutex(s.pcs[u]) { CountOne(s.pcs, HoldsMutex, t, u); }
    }
  }

  lemma NobodyHolds(s: State)
    requires Inv(s) && (CoreHolds(s.core) || !s.d.locked)
    ensures forall u :: u in s.pcs ==> !HoldsMutex(s.pcs[u])
  {
    forall u | u in s.pcs ensures !HoldsMutex(s.pcs[u]) {
      if HoldsMutex(s.pcs[u]) { MutexHolder(s, u); }
    }
  }

  lemma ThreadKeepsCounts(s: State, t: Tid, c: Choice)
    requires Inv(s) && t in s.pcs
    ensures var d', pcs' := NextDev(s.d, s.pcs[t], c), s.pcs[t := NextPc(s.d, s.pcs[t], c)];
            Permits(d'.wr, pcs') && (forall b :: BufferOk(d'.wr, pcs', b)) && Mutex(d'.locked, pcs', s.core)
  {
    var d, pc := s.d, s.pcs[t];
    var pc' := NextPc(d, pc, c);
    if OwnedBuffer(pc).Some? { OwnerIsNotInFlight(s, t); }
    if HoldsMutex(pc) { MutexHolder(s, t); }
    CountUpdate(s.pcs, t, pc', HoldsPermit);
    ThreadPermits(d, pc, c);
    CountUpdate(s.pcs, t, pc', HoldsMutex);
    ThreadMutex(d, pc, c);
    var w', pcs' := NextWrite(d, pc, c), s.pcs[t := pc'];
    forall b ensures BufferOk(w', pcs', b) {
      assert BufferOk(d.wr, s.pcs, b);
      CountUpdate(s.pcs, t, pc', Owns(b));
      ThreadBuffers(d, pc, c, b);
    }
  }

  /** A call stays on its file until it returns. */
  lemma CallKeepsFile(d: Dev, pc: Pc, c: Choice)
    ensures var pc' := NextPc(d, pc, c);
            && (FileOf(pc') == None ==> !Releasing(pc'))
            && (!pc.Idle? ==> FileOf(pc').None? || (FileOf(pc') == FileOf(pc) && Releasing(pc') == Releasing(pc)))
            && (pc.Idle? ==>
                  FileOf(pc').None? || (FileOf(pc') == Some(c.start.f) && Releasing(pc') == c.start.StartRelease?))
            && (pc.ReleasePut? ==> FileOf(pc').None? && FileOf(pc) == Some(pc.f) && Releasing(pc))
  {
  }

  lemma ThreadKeepsFiles(s: State, t: Tid, c: Choice)
    requires Inv(s) && t in s.pcs && (s.pcs[t].Idle? ==> MayStart(s, t, c.start))
    ensures FilesOk(NextLife(s.d.life, s.pcs[t]).opens, s.pcs[t := NextPc(s.d, s.pcs[t], c)])
  {
    hide NextPc;
    CallKeepsFile(s.d, s.pcs[t], c);
  }

  lemma ThreadKeepsLife(s: State, t: Tid)
    requires Inv(s) && t in s.pcs
    ensures LifeOk(NextLife(s.d.life, s.pcs[t]), s.core)
  {
    if s.pcs[t].ReleasePut? {
      var f := s.pcs[t].f;
      assert FileOf(s.pcs[t]) == Some(f);
      assert |s.d.life.opens - {f}| == |s.d.life.opens| - 1;
    }
  }

  lemma ThreadKeepsRest(s: State, t: Tid, c: Choice)
    requires Inv(s) && t in s.pcs
    ensures var d', pcs' := NextDev(s.d, s.pcs[t], c), s.pcs[t := NextPc(s.d, s.pcs[t], c)];
            Stream(d'.rd) && CoreOk(d', s.core) && PcsOk(State(d', pcs', s.core))
  {
    var d, pc := s.d, s.pcs[t];
    var d' := NextDev(d, pc, c);
    if OwnedBuffer(pc).Some? { OwnerIsNotInFlight(s, t); }
    if HoldsMutex(pc) { MutexHolder(s, t); } else { OutsideIsProtected(d, pc, c); }
    ThreadKeepsStream(d, pc, c);
    ThreadKeepsPc(d, pc, c);
    AnchorGrowsOnlyBySubmit(d, pc, c);
    forall u | u in s.pcs && u != t ensures PcOk(d', s.pcs[u]) {
      OutsiderKeepsPcOk(d, d', s.pcs[u]);
    }
  }

  /** A write URB given back, by the controller or by a kill. */
  lemma GiveBackKeepsInv(s: State, b: BufId, errors: int)
    requires Inv(s) && b in s.d.wr.inflight
    ensures Inv(s.(d := s.d.(wr := CompleteWrite(s.d.wr, b), errors := errors)))
  {
    var w, w' := s.d.wr, CompleteWrite(s.d.wr, b);
    var s' := s.(d := s.d.(wr := w', errors := errors));
    assert |w'.inflight| == |w.inflight| - 1;
    forall x ensures BufferOk(w', s.pcs, x) {
      assert BufferOk(w, s.pcs, x);
    }
    forall u | u in s.pcs ensures PcOk(s'.d, s.pcs[u]) {
      OutsiderKeepsPcOk(s.d, s'.d, s.pcs[u]);
    }
  }

  /** Killing a URB in flight frees its buffer, for the first time, and returns its permit; one whose
      submission failed only leaves the anchor, its call frees the buffer. */
  lemma KillKeepsInv(s: State, b: BufId)
    requires Inv(s)
    ensures Inv(s.(d := KillOne(s.d, b)))
    ensures var w, w' := s.d.wr, KillOne(s.d, b).wr;
            if b in w.inflight then
              w.frees[b] == 0 && w'.frees[b] == 1 && w'.permits == w.permits + 1 && w'.inflight == w.inflight - {b}
            else w' == w.(anchored := w.anchored - {b})
  {
    assert BufferOk(s.d.wr, s.pcs, b);
    if b in s.d.wr.inflight {
      GiveBackKeepsInv(s, b, -ENOENT);
    } else if b in s.d.wr.anchored {
      var s' := s.(d := KillOne(s.d, b));
      forall x ensures BufferOk(s'.d.wr, s.pcs, x) {
        assert BufferOk(s.d.wr, s.pcs, x);
      }
      forall u | u in s.pcs ensures PcOk(s'.d, s.pcs[u]) {
        OutsiderKeepsPcOk(s.d, s'.d, s.pcs[u]);
      }
    }
  }

  lemma ReadDoneKeepsInv(s: State, status: int, payload: seq<Byte>, errors: int)
    requires Inv(s) && s.d.rd.urb.Some? && |payload| <= s.d.rd.urb.value
    ensures Inv(s.(d := s.d.(rd := CompleteRead(s.d.rd, status, payload), errors := errors)))
  {
    CompletionKeepsStream(s.d.rd, status, payload);
    var s' := s.(d := s.d.(rd := CompleteRead(s.d.rd, status, payload), errors := errors));
    assert s'.d.wr == s.d.wr;
    assert forall x :: BufferOk(s.d.wr, s.pcs, x) ==> BufferOk(s'.d.wr, s.pcs, x);
  }

  /** The core's steps that touch only the mutex, `errors`, or the lifetime. */
  lemma CoreQuietStepKeepsInv(s: State, disconnect: bool, pick: BufId)
    requires Inv(s) && !s.core.ResetDrain? && !s.core.Kill? && !s.core.ResetKillRead?
    ensures Inv(Step(s, CoreStep(disconnect, pick)))
  {
    hide FilesOk, Stream, BufferOk;
    var s' := Step(s, CoreStep(disconnect, pick));
    if CoreHolds(s.core) || !s.d.locked { NobodyHolds(s); }
    assert s'.d.wr == s.d.wr && s'.d.rd == s.d.rd;
    forall u | u in s.pcs ensures PcOk(s'.d, s.pcs[u]) {
      OutsiderKeepsPcOk(s.d, s'.d, s.pcs[u]);
    }
  }

  lemma CoreStepKeepsInv(s: State, disconnect: bool, pick: BufId)
    requires Inv(s)
    ensures Inv(Step(s, CoreStep(disconnect, pick)))
  {
    hide FilesOk, Stream, BufferOk, Permits, PcOk;
    match s.core
    case ResetDrain => KillKeepsInv(s, pick);
    case Kill => KillKeepsInv(s, pick);
    case ResetKillRead =>
      if s.d.rd.urb.Some? { ReadDoneKeepsInv(s, -ENOENT, [], -ENOENT); }
    case _ => CoreQuietStepKeepsInv(s, disconnect, pick);
  }

  lemma StepKeepsInv(s: State, a: Action)
    requires Inv(s)
    ensures Inv(Step(s, a))
  {
    match a
    case Thread(t, c) =>
      if t in s.pcs && (s.pcs[t].Idle? ==> MayStart(s, t, c.start)) {
        ThreadKeepsCounts(s, t, c);
        ThreadKeepsFiles(s, t, c);
        ThreadKeepsLife(s, t);
        ThreadKeepsRest(s, t, c);
      }
    case CoreStep(disconnect, pick) => CoreStepKeepsInv(s, disconnect, pick);
    case Open(f) => OpenKeepsInv(s, f);
    case WriteDone(b, status) => if b in s.d.wr.inflight { GiveBackKeepsInv(s, b, NewErrors(s.d.errors, status)); }
    case ReadDone(status, payload) =>
      if s.d.rd.urb.Some? && |payload| <= s.d.rd.urb.value {
        ReadDoneKeepsInv(s, status, payload, NewErrors(s.d.errors, status));
      }
  }

  lemma OpenKeepsLife(s: State, f: FileId)
    requires Inv(s)
    ensures var s' := Step(s, Open(f));
            LifeOk(s'.d.life, s'.core) && FilesOk(s'.d.life.opens, s'.pcs)
  {
    hide Stream, BufferOk, Permits, Mutex, PcOk;
  }

  lemma OpenKeepsInv(s: State, f: FileId)
    requires Inv(s)
    ensures Inv(Step(s, Open(f)))
  {
    hide Stream, BufferOk, Permits, Mutex, FilesOk, LifeOk, PcOk;
    var s' := Step(s, Open(f));
    OpenKeepsLife(s, f);
    assert s'.d.wr == s.d.wr && s'.d.rd == s.d.rd;
    forall u | u in s.pcs ensures PcOk(s'.d, s.pcs[u]) {
      OutsiderKeepsPcOk(s.d, s'.d, s.pcs[u]);
    }
  }

  // ---- runs ----

  ghost predicate Init(s: State) {
    && s.d.life == Life(true, true, {}, 1, 0) && !s.d.locked && s.d.errors == 0
    && s.d.rd == ReadSide(false, 0, 0, s.d.rd.buffer, None, [], [], 0, 0, 0)
    && s.d.wr == WriteSide(WRITES_IN_FLIGHT, {}, {}, {}, multiset{}, 0, 0)
    && s.core.Attached?
    && forall t :: t in s.pcs ==> s.pcs[t].Idle?
  }

  lemma InitKeepsInv(s: State)
    requires Init(s)
    ensures Inv(s)
  {
    assert Where(s.pcs, HoldsPermit) == {} && Where(s.pcs, HoldsMutex) == {};
    forall b ensures BufferOk(s.d.wr, s.pcs, b) {
      assert Where(s.pcs, Owns(b)) == {};
    }
  }

  /** The state after any interleaving of calls, completions and core operations. */
  ghost function Exec(s: State, run: seq<Action>): (s': State)
    requires Inv(s)
    ensures Inv(s')
    decreases |run|
  {
    if run == [] then s
    else
      StepKeepsInv(s, run[0]);
      Exec(Step(s, run[0]), run[1..])
  }

  ghost function Run(s0: State, run: seq<Action>): (s: State)
    requires Init(s0)
    ensures Inv(s)
  {
    InitKeepsInv(s0);
    Exec(s0, run)
  }

  /** A call is inside skel_read's retry loop. */
  predicate InRetryLoop(pc: Pc) {
    pc.ReadRetry? || pc.ReadWait? || pc.ReadErrors? || pc.ReadClear? || pc.ReadBuffer? || pc.ReadUnlock?
  }

  /** The driver's promises about permits, buffers, the read stream and retries, over every run. */
  lemma ResourcesAreConserved(s0: State, run: seq<Action>)
    requires Init(s0)
    ensures var s := Run(s0, run);
            && s.d.wr.permits + Count(s.pcs, HoldsPermit) + |s.d.wr.inflight| == 8
            && (forall b :: s.d.wr.frees[b] <= 1)
            && (forall b :: s.d.wr.frees[b] == 1 <==>
                  b in s.d.wr.allocs && b !in s.d.wr.inflight && Count(s.pcs, Owns(b)) == 0)
            && s.d.rd.copied <= s.d.rd.filled <= |s.d.rd.buffer|
            && s.d.rd.consumed + s.d.rd.buffer[s.d.rd.copied..s.d.rd.filled] == s.d.rd.received
            && s.d.rd.completes <= s.d.rd.submits <= s.d.rd.completes + 1
            && (forall t :: t in s.pcs && InRetryLoop(s.pcs[t]) ==> RetriesBounded(s.d.rd, s.pcs[t].r))
  {
    var s := Run(s0, run);
    forall b ensures s.d.wr.frees[b] <= 1
      ensures s.d.wr.frees[b] == 1 <==> b in s.d.wr.allocs && b !in s.d.wr.inflight && Count(s.pcs, Owns(b)) == 0
    {
      assert BufferOk(s.d.wr, s.pcs, b);
    }
  }

  /** The device's lifetime, over every run: the count is right, skel_delete runs at most once and
      exactly when the count reaches zero; at that point the device is disconnected, every file is
      closed, no call is under way and no write URB is in flight. */
  lemma LifetimeIsSafe(s0: State, run: seq<Action>)
    requires Init(s0)
    ensures var s := Run(s0, run);
            && s.d.life.kref == |s.d.life.opens| + (if s.core.Gone? then 0 else 1)
            && s.d.life.deleted <= 1 && (s.d.life.deleted == 1 <==> s.d.life.kref == 0)
            && (s.d.life.deleted == 1 <==> s.core.Gone? && s.d.life.opens == {})
            && (s.d.life.deleted == 1 ==> s.d.wr.inflight == {} && forall t :: t in s.pcs ==> s.pcs[t].Idle?)
  {
    var s := Run(s0, run);
    assert |s.d.life.opens| == 0 <==> s.d.life.opens == {};
    forall t | t in s.pcs && !s.pcs[t].Idle? ensures s.d.life.opens != {} {
      assert FileOf(s.pcs[t]).Some?;
    }
  }

  /** From the end of pre_reset to the unlock in post_reset nothing is in flight and nobody else is
      inside io_mutex. */
  lemma ResetIsQuiet(s0: State, run: seq<Action>)
    requires Init(s0)
    ensures var s := Run(s0, run);
            s.core.InReset? ==>
              && s.d.wr.inflight == {} && s.d.rd.urb.None? && s.d.locked
              && forall t :: t in s.pcs ==> !HoldsMutex(s.pcs[t])
  {
    var s := Run(s0, run);
    if s.core.InReset? { NobodyHolds(s); }
  }

  /** A URB is submitted only by a thread inside io_mutex with the interface present and no reset
      under way, one at a time; a read URB only when every earlier one has completed. */
  lemma SubmissionsAreGuarded(s: State, a: Action)
    requires Inv(s)
    requires Step(s, a).d.wr.submits != s.d.wr.submits || Step(s, a).d.rd.submits != s.d.rd.submits
    ensures a.Thread? && a.t in s.pcs && (s.pcs[a.t].WriteSubmit? || s.pcs[a.t].ReadBuffer?)
    ensures s.pcs[a.t].ReadBuffer? ==> s.d.rd.submits == s.d.rd.completes
    ensures Step(s, a).d.wr.submits + Step(s, a).d.rd.submits == s.d.wr.submits + s.d.rd.submits + 1
    ensures s.d.life.interface && s.d.locked && !CoreHolds(s.core)
  {
    match a
    case Thread(t, c) =>
      if OwnedBuffer(s.pcs[t]).Some? { OwnerIsNotInFlight(s, t); }
      AnchorGrowsOnlyBySubmit(s.d, s.pcs[t], c);
      if HoldsMutex(s.pcs[t]) { MutexHolder(s, t); }
    case _ =>
  }

  /** Without a submission nothing comes in flight. */
  lemma NothingElseGrows(s: State, a: Action)
    requires Inv(s)
    requires Step(s, a).d.wr.submits == s.d.wr.submits && Step(s, a).d.rd.submits == s.d.rd.submits
    ensures Step(s, a).d.wr.inflight <= s.d.wr.inflight
    ensures Step(s, a).d.rd.urb.Some? ==> Step(s, a).d.rd.urb == s.d.rd.urb
  {
    hide NextPc, Stream, BufferOk, Permits, Mutex, FilesOk, LifeOk, CoreOk, PcOk;
    if a.Thread? && a.t in s.pcs { NothingElseGrowsHere(s.d, s.pcs[a.t], a.c); }
  }

  lemma NothingElseGrowsHere(d: Dev, pc: Pc, c: Choice)
    requires Stream(d.rd)
    requires NextDev(d, pc, c).wr.submits == d.wr.submits && NextDev(d, pc, c).rd.submits == d.rd.submits
    ensures NextDev(d, pc, c).wr.inflight <= d.wr.inflight
    ensures NextDev(d, pc, c).rd.urb.Some? ==> NextDev(d, pc, c).rd.urb == d.rd.urb
  {
  }

  /** Once disconnect has cleared `interface`, no run submits a URB of either kind again. */
  lemma {:induction false} DisconnectIsFinal(s: State, run: seq<Action>)
    requires Inv(s) && !s.d.life.interface
    ensures var s' := Exec(s, run);
            && !s'.d.life.interface
            && s'.d.wr.submits == s.d.wr.submits && s'.d.rd.submits == s.d.rd.submits
            && s'.d.wr.inflight <= s.d.wr.inflight
            && (s'.d.rd.urb.Some? ==> s'.d.rd.urb == s.d.rd.urb)
    decreases |run|
  {
    if run != [] {
      var s1 := Step(s, run[0]);
      StepKeepsInv(s, run[0]);
      if s1.d.wr.submits != s.d.wr.submits || s1.d.rd.submits != s.d.rd.submits {
        SubmissionsAreGuarded(s, run[0]);
      }
      NothingElseGrows(s, run[0]);
      DisconnectIsFinal(s1, run[1..]);
    }
  }
}
