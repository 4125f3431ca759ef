/**
 The per-device state of usb/usb-skeleton.c and what each actor does to it: the threads in
 read, write, flush, open and release, the USB core in pre/post reset and disconnect, and
 the host controller completing URBs.

 A URB is given back atomically: its removal from the anchor and its callback are one step.
 Fields protected by `io_mutex` that no completion touches are updated in one step where the
 source updates them one after the other.
 */
module UsbDevice {
  import opened Common

  type FileId = nat
  type Tid = nat
  type BufId = nat

  const WRITES_IN_FLIGHT: nat := 8
  const MAX_TRANSFER: nat := 4096 - 512 // of a 4096-byte page
  const EPIPE: int := 32
  const EIO: int := 5
  const ENOMEM: int := 12
  const ENODEV: int := 19
  const EAGAIN: int := 11
  const EFAULT: int := 14
  const ENOENT: int := 2
  const ERESTARTSYS: int := 512

  /** The read side: the read URB (its transfer length while in flight) and the one-buffer cache.
      `received` is the history of all bytes of successfully completed reads, `consumed` of those
      skel_read has taken out; `bad` counts the completions that failed or carried no data, `submits`
      and `completes` all submissions and completions. */
  datatype ReadSide = ReadSide(
    ongoing: bool, filled: nat, copied: nat, buffer: seq<Byte>, urb: Option<nat>,
    received: seq<Byte>, consumed: seq<Byte>, bad: nat, submits: nat, completes: nat)

  /** The write side: limit_sem, the URBs on the anchor and, among them, those submitted and not
      completed, each named by its DMA buffer; the histories of buffers allocated and freed, and the
      numbers of submissions and completions. */
  datatype WriteSide = WriteSide(
    permits: nat, anchored: set<BufId>, inflight: set<BufId>, allocs: set<BufId>, frees: multiset<BufId>,
    submits: nat, completes: nat)

  /** `interface` is "dev->interface is not NULL", `registered` is "open can find the device". */
  datatype Life = Life(interface: bool, registered: bool, opens: set<FileId>, kref: int, deleted: nat)

  /** struct usb_skel with its URBs; `locked` is io_mutex. */
  datatype Dev = Dev(life: Life, locked: bool, errors: int, rd: ReadSide, wr: WriteSide)

  // ---- completions ----

  function NewErrors(errors: int, status: int): int {
    if status != 0 then status else errors
  }

  /** skel_write_bulk_callback. */
  function CompleteWrite(w: WriteSide, b: BufId): WriteSide {
    w.(frees := w.frees + multiset{b}, permits := w.permits + 1,
       inflight := w.inflight - {b}, anchored := w.anchored - {b}, completes := w.completes + 1)
  }

  /** skel_read_bulk_callback; the controller may have stored bytes even if the transfer failed. */
  function CompleteRead(r: ReadSide, status: int, payload: seq<Byte>): ReadSide
    requires |payload| <= |r.buffer|
  {
    var b := payload + r.buffer[|payload|..];
    if status != 0 then
      r.(buffer := b, ongoing := false, urb := None, bad := r.bad + 1, completes := r.completes + 1)
    else r.(filled := |payload|, buffer := b, ongoing := false, urb := None, completes := r.completes + 1,
            received := r.received + payload, bad := if payload == [] then r.bad + 1 else r.bad)
  }

  /** usb_kill_anchored_urbs, one URB: it leaves the anchor and, if in flight, is cancelled. */
  function KillWrite(w: WriteSide, b: BufId): WriteSide {
    if b in w.inflight then CompleteWrite(w, b) else w.(anchored := w.anchored - {b})
  }

  function KillRead(r: ReadSide): ReadSide {
    if r.urb.Some? then CompleteRead(r, -ENOENT, []) else r
  }

  // ---- skel_read ----

  /** `subs` counts the read URBs this call submitted before going round `retry`; `base` is the
      value of `bad` at the first of them. */
  datatype Rd = Rd(f: FileId, count: nat, nonblock: bool, subs: nat, base: nat)

  datatype Wr = Wr(f: FileId, size: nat, nonblock: bool)

  datatype Pc =
    | Idle(rv: int)
    | ReadLock(r: Rd) | ReadCheck(r: Rd) | ReadRetry(r: Rd) | ReadWait(r: Rd)
    | ReadErrors(r: Rd) | ReadClear(r: Rd, seen: int) | ReadBuffer(r: Rd) | ReadUnlock(r: Rd, rv: int)
    | WriteDown(w: Wr) | WriteErrors(w: Wr) | WriteUrb(w: Wr) | WriteAlloc(w: Wr)
    | WriteCopy(w: Wr, b: BufId) | WriteLock(w: Wr, b: BufId) | WriteSubmit(w: Wr, b: BufId)
    | WriteUnlock(w: Wr) | WriteUnlockGone(w: Wr, b: BufId) | WriteUnlockFail(w: Wr, b: BufId, rv: int)
    | WriteUnanchor(w: Wr, b: BufId, rv: int) | WriteFree(w: Wr, buf: Option<BufId>, rv: int) | WriteUp(w: Wr, rv: int)
    | FlushLock(f: FileId) | FlushDrain(f: FileId) | FlushKillRead(f: FileId) | FlushErrors(f: FileId)
    | FlushUnlock(f: FileId, rv: int)
    | ReleaseLock(f: FileId) | ReleaseUnlock(f: FileId) | ReleasePut(f: FileId)

  datatype Start = StartRead(f: FileId, count: nat, nonblock: bool) | StartWrite(f: FileId, size: nat, nonblock: bool)
                 | StartFlush(f: FileId) | StartRelease(f: FileId)

  /** What the environment decides: signals, failing allocations, submissions and copies, the
      buffer an allocation returns, the URB a kill picks next. */
  datatype Choice = Choice(start: Start, signal: bool, ok: bool, status: int, buf: BufId)

  /** skel_do_read_io. */
  function DoReadIo(d: ReadSide, count: nat, ok: bool): ReadSide {
    if ok then
      d.(ongoing := true, filled := 0, copied := 0, urb := Some(Min(|d.buffer|, count)), submits := d.submits + 1)
    else d.(ongoing := false, filled := 0, copied := 0)
  }

  function ReportedError(errors: int): int {
    if errors == -EPIPE then errors else -EIO
  }

  function SubmitError(status: int): int {
    if status == -ENOMEM then status else -EIO
  }

  function FileOf(pc: Pc): Option<FileId> {
    match pc
    case Idle(_) => None
    case ReadLock(r) => Some(r.f)
    case ReadCheck(r) => Some(r.f)
    case ReadRetry(r) => Some(r.f)
    case ReadWait(r) => Some(r.f)
    case ReadErrors(r) => Some(r.f)
    case ReadClear(r, _) => Some(r.f)
    case ReadBuffer(r) => Some(r.f)
    case ReadUnlock(r, _) => Some(r.f)
    case FlushLock(f) => Some(f)
    case FlushDrain(f) => Some(f)
    case FlushKillRead(f) => Some(f)
    case FlushErrors(f) => Some(f)
    case FlushUnlock(f, _) => Some(f)
    case ReleaseLock(f) => Some(f)
    case ReleaseUnlock(f) => Some(f)
    case ReleasePut(f) => Some(f)
    case _ => Some(pc.w.f)
  }

  predicate Releasing(pc: Pc) {
    pc.ReleaseLock? || pc.ReleaseUnlock? || pc.ReleasePut?
  }

  /** Inside io_mutex. */
  predicate HoldsMutex(pc: Pc) {
    pc.ReadCheck? || pc.ReadRetry? || pc.ReadWait? || pc.ReadErrors? || pc.ReadClear?
    || pc.ReadBuffer? || pc.ReadUnlock?
    || pc.WriteSubmit? || pc.WriteUnlock? || pc.WriteUnlockGone? || pc.WriteUnlockFail?
    || pc.FlushDrain? || pc.FlushKillRead? || pc.FlushErrors? || pc.FlushUnlock? || pc.ReleaseUnlock?
  }

  /** Holds a permit of limit_sem that no submitted URB has taken over. */
  predicate HoldsPermit(pc: Pc) {
    pc.WriteErrors? || pc.WriteUrb? || pc.WriteAlloc? || pc.WriteCopy? || pc.WriteLock? || pc.WriteSubmit?
    || pc.WriteUnlockGone? || pc.WriteUnlockFail? || pc.WriteUnanchor? || pc.WriteFree? || pc.WriteUp?
  }

  /** The DMA buffer this thread must still free or hand to a URB. */
  function OwnedBuffer(pc: Pc): Option<BufId> {
    match pc
    case WriteCopy(_, b) => Some(b)
    case WriteLock(_, b) => Some(b)
    case WriteSubmit(_, b) => Some(b)
    case WriteUnlockGone(_, b) => Some(b)
    case WriteUnlockFail(_, b, _) => Some(b)
    case WriteUnanchor(_, b, _) => Some(b)
    case WriteFree(_, buf, _) => buf
    case _ => None
  }

  /** About to take io_mutex. */
  predicate WantsMutex(pc: Pc) {
    pc.ReadLock? || pc.WriteLock? || pc.FlushLock? || pc.ReleaseLock?
  }

  /** About to release it. */
  predicate Unlocks(pc: Pc) {
    pc.ReadUnlock? || pc.WriteUnlock? || pc.WriteUnlockGone? || pc.WriteUnlockFail?
    || pc.FlushUnlock? || pc.ReleaseUnlock?
  }

  function Begin(s: Start): Pc {
    match s
    case StartRead(f, count, nb) => if count == 0 then Idle(0) else ReadLock(Rd(f, count, nb, 0, 0))
    case StartWrite(f, size, nb) => if size == 0 then Idle(0) else WriteDown(Wr(f, size, nb))
    case StartFlush(f) => FlushLock(f)
    case StartRelease(f) => ReleaseLock(f)
  }

  /** A read submission that makes skel_read go round `retry`. */
  function Again(d: ReadSide, r: Rd): Pc {
    ReadRetry(r.(subs := r.subs + 1, base := if r.subs == 0 then d.bad else r.base))
  }

  function NextPc(d: Dev, pc: Pc, c: Choice): Pc {
    match pc
    case Idle(_) => Begin(c.start)
    // skel_read
    case ReadLock(r) => if !d.locked then ReadCheck(r) else if c.signal then Idle(-ERESTARTSYS) else pc
    case ReadCheck(r) => if d.life.interface then ReadRetry(r) else ReadUnlock(r, -ENODEV)
    case ReadRetry(r) =>
      if !d.rd.ongoing then ReadErrors(r) else if r.nonblock then ReadUnlock(r, -EAGAIN) else ReadWait(r)
    case ReadWait(r) =>
      if !d.rd.ongoing then ReadErrors(r) else if c.signal then ReadUnlock(r, -ERESTARTSYS) else pc
    // the load and the clearing store are not covered by err_lock
    case ReadErrors(r) => if d.errors < 0 then ReadClear(r, d.errors) else ReadBuffer(r)
    case ReadClear(r, seen) => ReadUnlock(r, ReportedError(seen))
    case ReadBuffer(r) =>
      if d.rd.filled != 0 && d.rd.filled > d.rd.copied then // data available
        ReadUnlock(r, if c.signal then -EFAULT else Min(d.rd.filled - d.rd.copied, r.count))
      else if c.ok then Again(d.rd, r)
      else ReadUnlock(r, SubmitError(c.status))
    case ReadUnlock(_, rv) => Idle(rv)
    // skel_write
    case WriteDown(w) =>
      if d.wr.permits > 0 then WriteErrors(w)
      else if w.nonblock then Idle(-EAGAIN)
      else if c.signal then Idle(-ERESTARTSYS)
      else pc
    case WriteErrors(w) => if d.errors < 0 then WriteFree(w, None, ReportedError(d.errors)) else WriteUrb(w)
    case WriteUrb(w) => if c.ok then WriteAlloc(w) else WriteFree(w, None, -ENOMEM)
    case WriteAlloc(w) =>
      if c.ok && c.buf !in d.wr.allocs then WriteCopy(w, c.buf) else WriteFree(w, None, -ENOMEM)
    case WriteCopy(w, b) => if c.ok then WriteLock(w, b) else WriteFree(w, Some(b), -EFAULT)
    case WriteLock(w, b) => if !d.locked then WriteSubmit(w, b) else pc
    case WriteSubmit(w, b) =>
      if !d.life.interface then WriteUnlockGone(w, b)
      else if c.ok then WriteUnlock(w)
      else WriteUnlockFail(w, b, c.status)
    case WriteUnlock(w) => Idle(Min(w.size, MAX_TRANSFER))
    case WriteUnlockGone(w, b) => WriteFree(w, Some(b), -ENODEV)
    case WriteUnlockFail(w, b, rv) => WriteUnanchor(w, b, rv)
    case WriteUnanchor(w, b, rv) => WriteFree(w, Some(b), rv)
    case WriteFree(w, _, rv) => WriteUp(w, rv)
    case WriteUp(_, rv) => Idle(rv)
    // skel_flush
    case FlushLock(f) => if !d.locked then FlushDrain(f) else pc
    case FlushDrain(f) => if d.wr.anchored == {} then FlushKillRead(f) else pc
    case FlushKillRead(f) => FlushErrors(f)
    case FlushErrors(f) => FlushUnlock(f, if d.errors == 0 then 0 else ReportedError(d.errors))
    case FlushUnlock(_, rv) => Idle(rv)
    // skel_release
    case ReleaseLock(f) => if !d.locked then ReleaseUnlock(f) else pc
    case ReleaseUnlock(f) => ReleasePut(f)
    case ReleasePut(_) => Idle(0)
  }

  /** kref_put: the last one runs skel_delete. */
  function Put(l: Life): Life {
    l.(kref := l.kref - 1, deleted := if l.kref == 1 then l.deleted + 1 else l.deleted)
  }

  /** skel_read with its URB idle: hand out what the buffer holds, and start a read if that is
      nothing or less than asked for. A faulting copy counts as consumed. */
  function ReadFromBuffer(d: ReadSide, count: nat, ok: bool): ReadSide
    requires d.copied <= d.filled <= |d.buffer|
  {
    var available := d.filled - d.copied;
    var chunk := Min(available, count);
    if d.filled != 0 && available != 0 then
      var d' := d.(copied := d.copied + chunk, consumed := d.consumed + d.buffer[d.copied..d.copied + chunk]);
      if available < count then DoReadIo(d', count - chunk, ok) else d'
    else DoReadIo(d, count, ok)
  }

  function NextRead(d: ReadSide, pc: Pc, c: Choice): ReadSide
    requires d.copied <= d.filled <= |d.buffer|
  {
    match pc
    case ReadBuffer(r) => ReadFromBuffer(d, r.count, c.ok)
    case FlushKillRead(_) => KillRead(d)
    case _ => d
  }

  function NextWrite(d: Dev, pc: Pc, c: Choice): WriteSide {
    var w := d.wr;
    match pc
    case WriteDown(_) => if w.permits > 0 then w.(permits := w.permits - 1) else w
    case WriteAlloc(_) => if c.ok && c.buf !in w.allocs then w.(allocs := w.allocs + {c.buf}) else w
    case WriteSubmit(_, b) =>
      if !d.life.interface then w
      else if c.ok then
        w.(anchored := w.anchored + {b}, inflight := w.inflight + {b}, submits := w.submits + 1)
      else w.(anchored := w.anchored + {b})
    case WriteUnanchor(_, b, _) => w.(anchored := w.anchored - {b})
    case WriteFree(_, buf, _) => if buf.Some? then w.(frees := w.frees + multiset{buf.value}) else w
    case WriteUp(_, _) => w.(permits := w.permits + 1)
    case FlushDrain(_) => if c.buf in w.anchored then KillWrite(w, c.buf) else w
    case _ => w
  }

  function NextErrors(d: Dev, pc: Pc, c: Choice): int {
    match pc
    case ReadClear(_, _) => 0
    case WriteErrors(_) => if d.errors < 0 then 0 else d.errors
    case FlushDrain(_) => if c.buf in d.wr.inflight then -ENOENT else d.errors
    case FlushKillRead(_) => if d.rd.urb.Some? then -ENOENT else d.errors
    case FlushErrors(_) => 0
    case _ => d.errors
  }

  function NextLocked(d: Dev, pc: Pc): bool {
    if WantsMutex(pc) then true else if Unlocks(pc) then false else d.locked
  }

  function NextLife(l: Life, pc: Pc): Life {
    if pc.ReleasePut? then Put(l.(opens := l.opens - {pc.f})) else l
  }

  function NextDev(d: Dev, pc: Pc, c: Choice): Dev
    requires d.rd.copied <= d.rd.filled <= |d.rd.buffer|
  {
    Dev(NextLife(d.life, pc), NextLocked(d, pc), NextErrors(d, pc, c), NextRead(d.rd, pc, c), NextWrite(d, pc, c))
  }
}
