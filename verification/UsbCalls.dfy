/**
 What the calls of usb/usb-skeleton.c do, from beginning to end, for a thread that runs on its own
 for a while; what completions deliver; and what the USB core's operations lead to.
 */
module UsbCalls {
  import opened Common
  import opened UsbDevice
  import opened UsbSystem

  /** The thread at `pc` alone, for at most `fuel` steps or until its call returns; what it does not
      decide itself in step i is f(i). */
  function Call(d: Dev, pc: Pc, f: nat -> Choice, i: nat, fuel: nat): (r: (Dev, Pc))
    requires Stream(d.rd) && PcOk(d, pc)
    ensures Stream(r.0.rd) && PcOk(r.0, r.1)
    decreases fuel
  {
    if fuel == 0 || pc.Idle? then (d, pc)
    else
      ThreadKeepsStream(d, pc, f(i));
      ThreadKeepsPc(d, pc, f(i));
      Call(NextDev(d, pc, f(i)), NextPc(d, pc, f(i)), f, i + 1, fuel - 1)
  }

  /** It is a run of the whole system in which only that thread moves. */
  lemma {:induction false} CallIsARun(s: State, t: Tid, f: nat -> Choice, i: nat, fuel: nat) returns (run: seq<Action>)
    requires Inv(s) && t in s.pcs
    ensures var s' := Exec(s, run);
            s' == State(Call(s.d, s.pcs[t], f, i, fuel).0, s.pcs[t := Call(s.d, s.pcs[t], f, i, fuel).1], s.core)
    decreases fuel
  {
    hide NextPc, NextDev, PcOk, Stream, BufferOk, Permits, Mutex, FilesOk, LifeOk, CoreOk;
    if fuel == 0 || s.pcs[t].Idle? {
      run := [];
      assert s.pcs[t := s.pcs[t]] == s.pcs;
    } else {
      StepKeepsInv(s, Thread(t, f(i)));
      var s1 := Step(s, Thread(t, f(i)));
      var rest := CallIsARun(s1, t, f, i + 1, fuel - 1);
      run := [Thread(t, f(i))] + rest;
      assert run[1..] == rest && run[0] == Thread(t, f(i));
    }
  }

  /** A thread between calls starts any call on an open file that the VFS allows, and none other. */
  lemma CallBegins(s: State, t: Tid, c: Choice)
    requires Inv(s) && t in s.pcs && s.pcs[t].Idle?
    ensures Step(s, Thread(t, c)) ==
            if MayStart(s, t, c.start) then s.(pcs := s.pcs[t := Begin(c.start)]) else s
  {
    hide Stream, Begin;
  }

  lemma Unroll(d: Dev, pc: Pc, f: nat -> Choice, i: nat, fuel: nat)
    requires Stream(d.rd) && PcOk(d, pc) && !pc.Idle? && fuel > 0
    ensures d.rd.copied <= d.rd.filled <= |d.rd.buffer|
    ensures var d', pc' := NextDev(d, pc, f(i)), NextPc(d, pc, f(i));
            && Stream(d'.rd) && PcOk(d', pc')
            && Call(d, pc, f, i, fuel) == Call(d', pc', f, i + 1, fuel - 1)
  {
    hide Stream, PcOk, NextPc;
    assert d.rd.copied <= d.rd.filled <= |d.rd.buffer| by { StreamBounds(d.rd); }
    ThreadKeepsStream(d, pc, f(i));
    ThreadKeepsPc(d, pc, f(i));
  }

  lemma Returned(d: Dev, rv: int, f: nat -> Choice, i: nat, fuel: nat)
    requires Stream(d.rd)
    ensures Call(d, Idle(rv), f, i, fuel) == (d, Idle(rv))
  {
  }

  /** What an error looks like to the caller: a reset's -EPIPE as it is, any other as -EIO. */
  predicate Reports(errors: int, rv: int) {
    errors < 0 && rv == if errors == -32 then -32 else -5
  }

  // ---- skel_write ----

  /** A write that gives up frees the buffer it has, if any, and returns its permit. */
  lemma GiveUp(d: Dev, w: Wr, buf: Option<BufId>, rv: int, f: nat -> Choice, i: nat, fuel: nat)
    requires Stream(d.rd) && fuel >= 2
    ensures Call(d, WriteFree(w, buf, rv), f, i, fuel) ==
            (d.(wr := d.wr.(permits := d.wr.permits + 1,
                            frees := if buf.Some? then d.wr.frees + multiset{buf.value} else d.wr.frees)), Idle(rv))
  {
    hide Stream, Call;
    Unroll(d, WriteFree(w, buf, rv), f, i, fuel);
    var d1 := NextDev(d, WriteFree(w, buf, rv), f(i));
    Unroll(d1, WriteUp(w, rv), f, i + 1, fuel - 1);
    var d2 := NextDev(d1, WriteUp(w, rv), f(i + 1));
    Returned(d2, rv, f, i + 2, fuel - 2);
  }

  /** With the data copied and io_mutex free: nothing is submitted once the interface is gone; a
      failing submission leaves no URB anchored and its buffer freed; a successful one takes over
      buffer and permit, and the call returns how much of the caller's data it has sent, at most 3584 bytes. */
  lemma SubmitAlone(d: Dev, w: Wr, b: BufId, f: nat -> Choice, i: nat, fuel: nat)
    requires Stream(d.rd) && !d.locked && fuel >= 6
    ensures Call(d, WriteLock(w, b), f, i, fuel) ==
            if !d.life.interface then
              (d.(wr := d.wr.(permits := d.wr.permits + 1, frees := d.wr.frees + multiset{b})), Idle(-19))
            else if f(i + 1).ok then
              (d.(wr := d.wr.(anchored := d.wr.anchored + {b}, inflight := d.wr.inflight + {b},
                              submits := d.wr.submits + 1)),
               Idle(if w.size < 3584 then w.size else 3584))
            else
              (d.(wr := d.wr.(permits := d.wr.permits + 1, frees := d.wr.frees + multiset{b},
                              anchored := d.wr.anchored + {b} - {b})), Idle(f(i + 1).status))
  {
    hide Stream, Call;
    Unroll(d, WriteLock(w, b), f, i, fuel);
    var d1 := d.(locked := true);
    Unroll(d1, WriteSubmit(w, b), f, i + 1, fuel - 1);
    if !d.life.interface {
      Unroll(d1, WriteUnlockGone(w, b), f, i + 2, fuel - 2);
      assert d1.(locked := false) == d;
      GiveUp(d, w, Some(b), -ENODEV, f, i + 3, fuel - 3);
    } else if f(i + 1).ok {
      var d2 := d1.(wr := d.wr.(anchored := d.wr.anchored + {b}, inflight := d.wr.inflight + {b},
                                submits := d.wr.submits + 1));
      Unroll(d2, WriteUnlock(w), f, i + 2, fuel - 2);
      Returned(d2.(locked := false), if w.size < 3584 then w.size else 3584, f, i + 3, fuel - 3);
    } else {
      SubmitFails(d1, w, b, f(i + 1).status, f, i + 2, fuel - 2);
    }
  }

  lemma SubmitFails(d: Dev, w: Wr, b: BufId, rv: int, f: nat -> Choice, i: nat, fuel: nat)
    requires Stream(d.rd) && fuel >= 4
    ensures var d1 := d.(wr := d.wr.(anchored := d.wr.anchored + {b}));
            Call(d1, WriteUnlockFail(w, b, rv), f, i, fuel) ==
            (d.(locked := false, wr := d.wr.(permits := d.wr.permits + 1, frees := d.wr.frees + multiset{b},
                                             anchored := d.wr.anchored + {b} - {b})), Idle(rv))
  {
    hide Stream, Call;
    var d1 := d.(wr := d.wr.(anchored := d.wr.anchored + {b}));
    Unroll(d1, WriteUnlockFail(w, b, rv), f, i, fuel);
    var d2 := d1.(locked := false);
    Unroll(d2, WriteUnanchor(w, b, rv), f, i + 1, fuel - 1);
    GiveUp(d2.(wr := d2.wr.(anchored := d.wr.anchored + {b} - {b})), w, Some(b), rv, f, i + 2, fuel - 2);
  }

  /** With a permit: a pending error is reported and cleared, the permit returned; so it is when an
      allocation or the copy fails; else the buffer is on its way. */
  lemma PrepareAlone(d: Dev, w: Wr, f: nat -> Choice, i: nat, fuel: nat) returns (rv: int)
    requires Stream(d.rd) && !d.locked && fuel >= 10
    ensures var r, b := Call(d, WriteErrors(w), f, i, fuel), f(i + 2).buf;
            if d.errors < 0 then
              Reports(d.errors, rv) && r == (d.(errors := 0, wr := d.wr.(permits := d.wr.permits + 1)), Idle(rv))
            else if !f(i + 1).ok || !f(i + 2).ok || b in d.wr.allocs then
              r == (d.(wr := d.wr.(permits := d.wr.permits + 1)), Idle(-12))
            else
              var d' := d.(wr := d.wr.(allocs := d.wr.allocs + {b}));
              if !f(i + 3).ok then
                r == (d'.(wr := d'.wr.(permits := d.wr.permits + 1, frees := d.wr.frees + multiset{b})), Idle(-14))
              else r == Call(d', WriteLock(w, b), f, i + 4, fuel - 4)
  {
    hide Stream, Call;
    rv := ReportedError(d.errors);
    Unroll(d, WriteErrors(w), f, i, fuel);
    if d.errors < 0 {
      GiveUp(d.(errors := 0), w, None, rv, f, i + 1, fuel - 1);
    } else {
      AllocateAlone(d, w, f, i + 1, fuel - 1);
    }
  }

  lemma AllocateAlone(d: Dev, w: Wr, f: nat -> Choice, i: nat, fuel: nat)
    requires Stream(d.rd) && !d.locked && fuel >= 9
    ensures var r, b := Call(d, WriteUrb(w), f, i, fuel), f(i + 1).buf;
            if !f(i).ok || !f(i + 1).ok || b in d.wr.allocs then
              r == (d.(wr := d.wr.(permits := d.wr.permits + 1)), Idle(-12))
            else
              var d' := d.(wr := d.wr.(allocs := d.wr.allocs + {b}));
              if !f(i + 2).ok then
                r == (d'.(wr := d'.wr.(permits := d.wr.permits + 1, frees := d.wr.frees + multiset{b})), Idle(-14))
              else r == Call(d', WriteLock(w, b), f, i + 3, fuel - 3)
  {
    hide Stream, Call;
    var b := f(i + 1).buf;
    Unroll(d, WriteUrb(w), f, i, fuel);
    if !f(i).ok {
      GiveUp(d, w, None, -ENOMEM, f, i + 1, fuel - 1);
    } else {
      Unroll(d, WriteAlloc(w), f, i + 1, fuel - 1);
      if !f(i + 1).ok || b in d.wr.allocs {
        GiveUp(d, w, None, -ENOMEM, f, i + 2, fuel - 2);
      } else {
        var d' := d.(wr := d.wr.(allocs := d.wr.allocs + {b}));
        Unroll(d', WriteCopy(w, b), f, i + 2, fuel - 2);
        if !f(i + 2).ok { GiveUp(d', w, Some(b), -EFAULT, f, i + 3, fuel - 3); }
      }
    }
  }

  /** A whole write, nothing else moving, when everything it needs works: one more URB in flight with
      a buffer of its own and one permit less; it returns how much it has sent. */
  lemma WriteAlone(d: Dev, file: FileId, size: nat, nonblock: bool, f: nat -> Choice, fuel: nat)
    requires Stream(d.rd) && !d.locked && d.life.interface && d.errors >= 0 && d.wr.permits > 0
    requires size > 0 && fuel >= 11
    requires f(2).ok && f(3).ok && f(3).buf !in d.wr.allocs && f(4).ok && f(6).ok
    ensures var r, b := Call(d, Begin(StartWrite(file, size, nonblock)), f, 0, fuel), f(3).buf;
            && r.1 == Idle(if size < 3584 then size else 3584)
            && r.0 == d.(wr := d.wr.(permits := d.wr.permits - 1, allocs := d.wr.allocs + {b},
                                     anchored := d.wr.anchored + {b}, inflight := d.wr.inflight + {b},
                                     submits := d.wr.submits + 1))
  {
    hide Stream, Call;
    var w, d1 := Wr(file, size, nonblock), d.(wr := d.wr.(permits := d.wr.permits - 1));
    Unroll(d, WriteDown(w), f, 0, fuel);
    var rv := PrepareAlone(d1, w, f, 1, fuel - 1);
    SubmitAlone(d1.(wr := d1.wr.(allocs := d1.wr.allocs + {f(3).buf})), w, f(3).buf, f, 5, fuel - 5);
  }

  /** The ways a write ends before it has a permit. Otherwise it waits. */
  lemma WriteWithoutPermit(d: Dev, file: FileId, size: nat, nonblock: bool, f: nat -> Choice, fuel: nat)
    requires Stream(d.rd) && fuel >= 1 && (size == 0 || d.wr.permits == 0)
    ensures Call(d, Begin(StartWrite(file, size, nonblock)), f, 0, 1) ==
            (d, if size == 0 then Idle(0)
                else if nonblock then Idle(-11)
                else if f(0).signal then Idle(-512)
                else WriteDown(Wr(file, size, nonblock)))
  {
  }

  /** Without a permit a write waits for one, or for a signal. */
  lemma {:induction false} StillWaiting(d: Dev, w: Wr, f: nat -> Choice, i: nat, fuel: nat)
    requires Stream(d.rd) && d.wr.permits == 0 && !w.nonblock
    ensures Call(d, WriteDown(w), f, i, fuel) == (d, WriteDown(w)) ||
            Call(d, WriteDown(w), f, i, fuel) == (d, Idle(-512))
    decreases fuel
  {
    if fuel > 0 {
      Unroll(d, WriteDown(w), f, i, fuel);
      if f(i).signal { Returned(d, -512, f, i + 1, fuel - 1); } else { StillWaiting(d, w, f, i + 1, fuel - 1); }
    }
  }

  /** A write that fails changes nothing but what it reports: errors cleared, permits as before, the
      same URBs in flight, every buffer it allocated freed. */
  lemma FailedWriteLeavesNothing(d: Dev, file: FileId, size: nat, nonblock: bool, f: nat -> Choice, fuel: nat)
    requires Stream(d.rd) && !d.locked && fuel >= 11 && size > 0
    requires f(3).buf !in d.wr.anchored
    ensures var (d', pc') := Call(d, Begin(StartWrite(file, size, nonblock)), f, 0, fuel);
            pc'.Idle? && pc'.rv < 0 ==>
              && d'.life == d.life && d'.rd == d.rd && d'.locked == d.locked
              && (d'.errors == d.errors || (d'.errors == 0 && Reports(d.errors, pc'.rv)))
              && d'.wr.permits == d.wr.permits && d'.wr.inflight == d.wr.inflight
              && d'.wr.anchored == d.wr.anchored && d'.wr.submits == d.wr.submits
              && (|| d'.wr == d.wr
                  || (d'.wr.allocs == d.wr.allocs + {f(3).buf} && d'.wr.frees == d.wr.frees + multiset{f(3).buf}))
  {
    hide Stream, Call;
    var w, b := Wr(file, size, nonblock), f(3).buf;
    Unroll(d, WriteDown(w), f, 0, fuel);
    if d.wr.permits > 0 {
      var d1 := d.(wr := d.wr.(permits := d.wr.permits - 1));
      var rv := PrepareAlone(d1, w, f, 1, fuel - 1);
      var d2 := d1.(wr := d1.wr.(allocs := d1.wr.allocs + {b}));
      SubmitAlone(d2, w, b, f, 5, fuel - 5);
      assert d.wr.anchored + {b} - {b} == d.wr.anchored;
    } else if nonblock {
      Returned(d, -EAGAIN, f, 1, fuel - 1);
    } else if f(0).signal {
      Returned(d, -ERESTARTSYS, f, 1, fuel - 1);
    } else {
      StillWaiting(d, w, f, 1, fuel - 1);
    }
  }

  // ---- skel_read ----

  /** A read started on a used-up buffer: empty buffer, and a URB of the length asked for or of the
      buffer's, whichever is less; none if the submission fails. */
  function Started(d: ReadSide, count: nat, ok: bool): ReadSide {
    d.(filled := 0, copied := 0, ongoing := ok, urb := if ok then Some(Min(count, |d.buffer|)) else d.urb,
       submits := if ok then d.submits + 1 else d.submits)
  }

  /** With data in the buffer a read takes the next bytes, as many as asked for and there; if it asked
      for more than was there, it also starts the next read for the rest. Without, it starts a read. */
  lemma ReadSideAfter(d: ReadSide, count: nat, ok: bool)
    requires Stream(d) && !d.ongoing
    ensures var n, d' := Min(d.filled - d.copied, count), ReadFromBuffer(d, count, ok);
            var taken := d.(consumed := d.consumed + d.buffer[d.copied..d.copied + n], copied := d.copied + n);
            if d.copied == d.filled then d' == Started(d, count, ok)
            else if d.filled - d.copied < count then d' == Started(taken, count - n, ok)
            else d' == taken
  {
  }

  lemma ReadEnds(d: Dev, r: Rd, rv: int, f: nat -> Choice, i: nat, fuel: nat)
    requires Stream(d.rd) && RetriesBounded(d.rd, r) && fuel >= 1
    ensures Call(d, ReadUnlock(r, rv), f, i, fuel) == (d.(locked := false), Idle(rv))
  {
    hide Call;
    Unroll(d, ReadUnlock(r, rv), f, i, fuel);
    Returned(d.(locked := false), rv, f, i + 1, fuel - 1);
  }

  /** The URB is idle: a pending error is reported and cleared; data is handed out, or lost if the copy
      faults; without data a read is started, and if that fails the call reports it. */
  lemma ReadFromIdle(d: Dev, r: Rd, f: nat -> Choice, i: nat, fuel: nat) returns (rv: int)
    requires Stream(d.rd) && PcOk(d, ReadErrors(r)) && fuel >= 4
    ensures var n, c := Min(d.rd.filled - d.rd.copied, r.count), f(i + 1);
            var res := Call(d, ReadErrors(r), f, i, fuel);
            d.rd.copied <= d.rd.filled <= |d.rd.buffer| &&
            var rd' := ReadFromBuffer(d.rd, r.count, c.ok);
            if d.errors < 0 then Reports(d.errors, rv) && res == (d.(errors := 0, locked := false), Idle(rv))
            else if d.rd.copied < d.rd.filled then
              res == (d.(rd := rd', locked := false), Idle(if c.signal then -14 else n))
            else if !c.ok then
              res == (d.(rd := rd', locked := false), Idle(if c.status == -12 then -12 else -5))
            else
              && Stream(rd') && PcOk(d.(rd := rd'), Again(d.rd, r))
              && res == Call(d.(rd := rd'), Again(d.rd, r), f, i + 2, fuel - 2)
  {
    hide Call, Stream;
    rv := ReportedError(d.errors);
    Unroll(d, ReadErrors(r), f, i, fuel);
    if d.errors < 0 {
      Unroll(d, ReadClear(r, d.errors), f, i + 1, fuel - 1);
      var d2 := d.(errors := 0);
      ReadEnds(d2, r, rv, f, i + 2, fuel - 2);
    } else {
      Unroll(d, ReadBuffer(r), f, i + 1, fuel - 1);
      var d2, pc2 := NextDev(d, ReadBuffer(r), f(i + 1)), NextPc(d, ReadBuffer(r), f(i + 1));
      if pc2.ReadUnlock? { ReadEnds(d2, r, pc2.rv, f, i + 2, fuel - 2); }
    }
  }

  /** A read that starts while a URB is in flight, or has just started one itself. */
  lemma ReadOngoing(d: Dev, r: Rd, f: nat -> Choice, i: nat, fuel: nat)
    requires Stream(d.rd) && PcOk(d, ReadRetry(r)) && d.rd.ongoing && fuel >= 2
    ensures Call(d, ReadRetry(r), f, i, fuel) ==
            if r.nonblock then (d.(locked := false), Idle(-11)) else Call(d, ReadWait(r), f, i + 1, fuel - 1)
  {
    hide Call, Stream;
    Unroll(d, ReadRetry(r), f, i, fuel);
    if r.nonblock { ReadEnds(d, r, -11, f, i + 1, fuel - 1); }
  }

  /** Waiting for the URB: until it has completed, or a signal. */
  lemma ReadWaiting(d: Dev, r: Rd, f: nat -> Choice, i: nat, fuel: nat)
    requires Stream(d.rd) && PcOk(d, ReadWait(r)) && fuel >= 2
    ensures Call(d, ReadWait(r), f, i, fuel) ==
            if !d.rd.ongoing then Call(d, ReadErrors(r), f, i + 1, fuel - 1)
            else if f(i).signal then (d.(locked := false), Idle(-512))
            else Call(d, ReadWait(r), f, i + 1, fuel - 1)
  {
    hide Call, Stream;
    Unroll(d, ReadWait(r), f, i, fuel);
    if d.rd.ongoing && f(i).signal { ReadEnds(d, r, -512, f, i + 1, fuel - 1); }
  }

  /** The beginning of a read with io_mutex free. */
  lemma ReadBegins(d: Dev, file: FileId, count: nat, nonblock: bool, f: nat -> Choice, fuel: nat)
    requires Stream(d.rd) && !d.locked && fuel >= 8
    ensures var r, res := Rd(file, count, nonblock, 0, 0), Call(d, Begin(StartRead(file, count, nonblock)), f, 0, fuel);
            if count == 0 then res == (d, Idle(0))
            else if !d.life.interface then res == (d, Idle(-19))
            else if d.rd.ongoing then
              res == if nonblock then (d, Idle(-11)) else Call(d.(locked := true), ReadWait(r), f, 3, fuel - 3)
            else res == Call(d.(locked := true), ReadErrors(r), f, 3, fuel - 3)
  {
    hide Call, Stream;
    var r, d1 := Rd(file, count, nonblock, 0, 0), d.(locked := true);
    if count == 0 {
      Returned(d, 0, f, 0, fuel);
    } else {
      Unroll(d, ReadLock(r), f, 0, fuel);
      Unroll(d1, ReadCheck(r), f, 1, fuel - 1);
      assert d1.(locked := false) == d;
      if !d.life.interface {
        ReadEnds(d1, r, -19, f, 2, fuel - 2);
      } else if d.rd.ongoing {
        ReadOngoing(d1, r, f, 2, fuel - 2);
      } else {
        Unroll(d1, ReadRetry(r), f, 2, fuel - 2);
      }
    }
  }

  /** A whole read, nothing else moving, with data in the buffer: the next bytes of the stream, as many
      as asked for and there, are consumed, and their number returned; or -EFAULT, and they are lost. */
  lemma ReadAlone(d: Dev, file: FileId, count: nat, nonblock: bool, f: nat -> Choice, fuel: nat)
    requires Stream(d.rd) && !d.locked && d.life.interface && !d.rd.ongoing && d.errors >= 0
    requires count > 0 && d.rd.copied < d.rd.filled && fuel >= 8
    ensures var n := Min(d.rd.filled - d.rd.copied, count);
            var (d', pc') := Call(d, Begin(StartRead(file, count, nonblock)), f, 0, fuel);
            && pc' == Idle(if f(4).signal then -14 else n) && n > 0
            && d' == d.(rd := d'.rd)
            && d'.rd.consumed == d.rd.consumed + d.rd.buffer[d.rd.copied..d.rd.copied + n]
            && d'.rd == (if d.rd.filled - d.rd.copied < count
                         then Started(d.rd, count - n, f(4).ok) else d.rd.(copied := d.rd.copied + n))
                        .(consumed := d'.rd.consumed)
  {
    hide Call, Stream, ReadFromBuffer;
    ReadBegins(d, file, count, nonblock, f, fuel);
    var d1, r := d.(locked := true), Rd(file, count, nonblock, 0, 0);
    var rv := ReadFromIdle(d1, r, f, 3, fuel - 3);
    ReadSideAfter(d.rd, count, f(4).ok);
  }

  /** ... and without: a read URB of the length asked for is in flight; the call waits for it, or returns
      -EAGAIN if it must not block. */
  lemma ReadStarts(d: Dev, file: FileId, count: nat, nonblock: bool, f: nat -> Choice, fuel: nat)
    requires Stream(d.rd) && !d.locked && d.life.interface && !d.rd.ongoing && d.errors >= 0
    requires count > 0 && d.rd.copied == d.rd.filled && f(4).ok && fuel >= 9
    ensures var d', r := d.(rd := Started(d.rd, count, true)), Rd(file, count, nonblock, 1, d.rd.bad);
            && Stream(d'.rd) && PcOk(d'.(locked := true), ReadWait(r))
            && Call(d, Begin(StartRead(file, count, nonblock)), f, 0, fuel) ==
               if nonblock then (d', Idle(-11)) else Call(d'.(locked := true), ReadWait(r), f, 6, fuel - 6)
  {
    hide Call, ReadFromBuffer;
    ReadBegins(d, file, count, nonblock, f, fuel);
    var d1, r := d.(locked := true), Rd(file, count, nonblock, 0, 0);
    var rv := ReadFromIdle(d1, r, f, 3, fuel - 3);
    ReadSideAfter(d.rd, count, f(4).ok);
    DoReadIoKeepsStream(d.rd, count, true);
    ReadOngoing(d1.(rd := Started(d.rd, count, true)), r.(subs := 1, base := d.rd.bad), f, 5, fuel - 5);
  }

  /** io_mutex held by somebody else: everyone waits, and only a read may give up on a signal. */
  lemma MutexTaken(d: Dev, pc: Pc, f: nat -> Choice, i: nat)
    requires Stream(d.rd) && PcOk(d, pc) && d.locked && WantsMutex(pc)
    ensures Call(d, pc, f, i, 1) == (d, if pc.ReadLock? && f(i).signal then Idle(-512) else pc)
  {
    hide Stream;
    Unroll(d, pc, f, i, 1);
  }

  // ---- skel_flush and skel_release ----

  /** With no write URB left, a flush cancels the read URB and reports and clears what is pending: the
      last failure, or -EIO for the read it has just cancelled. */
  lemma FlushAlone(d: Dev, file: FileId, f: nat -> Choice, fuel: nat)
    requires Stream(d.rd) && !d.locked && d.wr.inflight <= d.wr.anchored == {} && fuel >= 5
    ensures Call(d, Begin(StartFlush(file)), f, 0, fuel) ==
            if d.rd.urb.None? then
              (d.(errors := 0), Idle(if d.errors == 0 then 0 else if d.errors == -32 then -32 else -5))
            else
              (d.(errors := 0, rd := Cancelled(d.rd)), Idle(-5))
  {
    hide Call, Stream, KillRead;
    Unroll(d, FlushLock(file), f, 0, fuel);
    var d1 := d.(locked := true);
    FlushDrained(d1, file, f, 1, fuel - 1);
    FlushKills(d1, file, f, 2, fuel - 2);
    KilledRead(d.rd);
    if d.rd.urb.None? {
      assert d1.(rd := KillRead(d.rd), errors := d.errors) == d1;
      FlushReports(d1, file, f, 3, fuel - 3);
    } else {
      FlushReports(d1.(rd := Cancelled(d.rd), errors := -2), file, f, 3, fuel - 3);
    }
  }

  lemma FlushDrained(d: Dev, file: FileId, f: nat -> Choice, i: nat, fuel: nat)
    requires Stream(d.rd) && d.wr.inflight <= d.wr.anchored == {} && fuel >= 1
    ensures Call(d, FlushDrain(file), f, i, fuel) == Call(d, FlushKillRead(file), f, i + 1, fuel - 1)
  {
    hide Call, Stream;
    Unroll(d, FlushDrain(file), f, i, fuel);
  }

  lemma FlushKills(d: Dev, file: FileId, f: nat -> Choice, i: nat, fuel: nat)
    requires Stream(d.rd) && PcOk(d, FlushKillRead(file)) && fuel >= 1
    ensures var d' := d.(rd := KillRead(d.rd), errors := if d.rd.urb.Some? then -2 else d.errors);
            && Stream(d'.rd) && PcOk(d', FlushErrors(file))
            && Call(d, FlushKillRead(file), f, i, fuel) == Call(d', FlushErrors(file), f, i + 1, fuel - 1)
  {
    hide Call, Stream, KillRead;
    Unroll(d, FlushKillRead(file), f, i, fuel);
  }

  function Cancelled(d: ReadSide): ReadSide {
    d.(ongoing := false, urb := None, bad := d.bad + 1, completes := d.completes + 1)
  }

  lemma KilledRead(d: ReadSide)
    ensures KillRead(d) == if d.urb.None? then d else Cancelled(d)
  {
    assert [] + d.buffer[0..] == d.buffer;
  }

  lemma FlushReports(d: Dev, file: FileId, f: nat -> Choice, i: nat, fuel: nat)
    requires Stream(d.rd) && PcOk(d, FlushErrors(file)) && fuel >= 2
    ensures Call(d, FlushErrors(file), f, i, fuel) ==
            (d.(errors := 0, locked := false),
             Idle(if d.errors == 0 then 0 else if d.errors == -32 then -32 else -5))
  {
    hide Call, Stream;
    var rv := if d.errors == 0 then 0 else ReportedError(d.errors);
    Unroll(d, FlushErrors(file), f, i, fuel);
    var d1 := d.(errors := 0);
    Unroll(d1, FlushUnlock(file, rv), f, i + 1, fuel - 1);
    Returned(d1.(locked := false), rv, f, i + 2, fuel - 2);
  }

  /** While there are write URBs a flush cancels them, one after the other, or waits for them. */
  lemma FlushDrains(d: Dev, file: FileId, f: nat -> Choice, i: nat)
    requires Stream(d.rd) && d.wr.anchored != {}
    ensures var d' := Call(d, FlushDrain(file), f, i, 1).0;
            && Call(d, FlushDrain(file), f, i, 1).1 == FlushDrain(file)
            && d'.wr.anchored == d.wr.anchored - {f(i).buf}
            && d'.wr.inflight == d.wr.inflight - ({f(i).buf} * d.wr.anchored)
  {
  }

  /** Closing a file: it is no longer open, and its reference is gone; the last one deletes the device. */
  lemma ReleaseAlone(d: Dev, file: FileId, f: nat -> Choice, fuel: nat)
    requires Stream(d.rd) && !d.locked && fuel >= 3
    ensures var l := d.life;
            Call(d, Begin(StartRelease(file)), f, 0, fuel) ==
            (d.(life := l.(opens := l.opens - {file}, kref := l.kref - 1,
                           deleted := if l.kref == 1 then l.deleted + 1 else l.deleted)), Idle(0))
  {
    hide Call, Stream;
    Unroll(d, ReleaseLock(file), f, 0, fuel);
    Unroll(d.(locked := true), ReleaseUnlock(file), f, 1, fuel - 1);
    Unroll(d, ReleasePut(file), f, 2, fuel - 2);
    var d' := NextDev(d, ReleasePut(file), f(2));
    Returned(d', 0, f, 3, fuel - 3);
  }

  /** A registered device can be opened, and one that is not cannot. */
  lemma OpenExactly(s: State, file: FileId)
    requires Inv(s) && file !in s.d.life.opens
    ensures var s' := Step(s, Open(file));
            if s.d.life.registered then
              s' == s.(d := s.d.(life := s.d.life.(opens := s.d.life.opens + {file}, kref := s.d.life.kref + 1)))
            else s' == s
  {
    hide Stream;
  }

  // ---- completions ----

  /** A write URB that completes, well or not, leaves the anchor and gives its buffer and permit back;
      one that is not in flight does not complete. */
  lemma WriteCompletes(s: State, b: BufId, status: int)
    requires Inv(s) && status <= 0
    ensures var w, s' := s.d.wr, Step(s, WriteDone(b, status));
            && s'.pcs == s.pcs && s'.core == s.core && s'.d.rd == s.d.rd && s'.d.life == s.d.life
            && s'.d.locked == s.d.locked
            && s'.d.wr == if b !in w.inflight then w
                          else w.(inflight := w.inflight - {b}, anchored := w.anchored - {b},
                                  frees := w.frees + multiset{b}, permits := w.permits + 1,
                                  completes := w.completes + 1)
  {
    hide Stream;
  }

  /** The bytes that the controller has delivered in a run: the payloads of the completions that
      succeeded, of URBs in flight. */
  ghost function Payloads(s: State, run: seq<Action>): seq<Byte>
    requires Inv(s)
    decreases |run|
  {
    if run == [] then []
    else
      StepKeepsInv(s, run[0]);
      PayloadOf(s, run[0]) + Payloads(Step(s, run[0]), run[1..])
  }

  function PayloadOf(s: State, a: Action): seq<Byte> {
    match a
    case ReadDone(status, payload) =>
      if s.d.rd.urb.Some? && |payload| <= s.d.rd.urb.value && status == 0 then payload else []
    case _ => []
  }

  lemma StepReceives(s: State, a: Action)
    requires Inv(s)
    ensures Step(s, a).d.rd.received == s.d.rd.received + PayloadOf(s, a)
  {
  }

  /** Over every run the bytes received, and so the bytes handed out followed by those left in the
      buffer, are exactly the bytes delivered, in order. */
  lemma {:induction false} ReceivedIsDelivered(s: State, run: seq<Action>)
    requires Inv(s)
    ensures Exec(s, run).d.rd.received == s.d.rd.received + Payloads(s, run)
    decreases |run|
  {
    hide Step, PayloadOf, Stream, BufferOk, Permits, Mutex, FilesOk, LifeOk, CoreOk, PcOk;
    if run != [] {
      StepKeepsInv(s, run[0]);
      StepReceives(s, run[0]);
      ReceivedIsDelivered(Step(s, run[0]), run[1..]);
    }
  }

  lemma StreamIsDelivered(s0: State, run: seq<Action>)
    requires Init(s0)
    ensures Inv(s0)
    ensures var rd := Run(s0, run).d.rd;
            rd.copied <= rd.filled <= |rd.buffer| && rd.consumed + rd.buffer[rd.copied..rd.filled] == Payloads(s0, run)
  {
    InitKeepsInv(s0);
    ReceivedIsDelivered(s0, run);
    ResourcesAreConserved(s0, run);
  }

  /** A failure is kept until it is reported: the status of a failing completion, or that a URB was
      cancelled, or a reset, replaces what was pending; only a read, a write or a flush that reports
      what it finds clears it. */
  lemma ErrorsAreKept(s: State, a: Action)
    requires Inv(s)
    ensures var errors := Step(s, a).d.errors;
            match a
            case Open(_) => errors == s.d.errors
            case WriteDone(b, status) =>
              errors == if b in s.d.wr.inflight && status < 0 then status else s.d.errors
            case ReadDone(status, payload) =>
              errors == if s.d.rd.urb.Some? && |payload| <= s.d.rd.urb.value && status < 0 then status else s.d.errors
            case CoreStep(_, b) =>
              errors == if s.core.InReset? then -32
                        else if (s.core.ResetDrain? || s.core.Kill?) && b in s.d.wr.inflight then -2
                        else if s.core.ResetKillRead? && s.d.rd.urb.Some? then -2
                        else s.d.errors
            case Thread(t, c) =>
              errors == if t !in s.pcs then s.d.errors
                        else if s.pcs[t].FlushDrain? && c.buf in s.d.wr.inflight then -2
                        else if s.pcs[t].FlushKillRead? && s.d.rd.urb.Some? then -2
                        else if s.pcs[t].ReadClear? || s.pcs[t].FlushErrors? then 0
                        else if s.pcs[t].WriteErrors? && s.d.errors < 0 then 0
                        else s.d.errors
  {
    hide Stream;
  }

  // ---- the USB core ----

  /** A run of core steps alone. */
  ghost function CoreRun(s: State, disconnect: bool, n: nat): State
    requires Inv(s)
    ensures Inv(CoreRun(s, disconnect, n))
  {
    if n == 0 then s
    else
      StepKeepsInv(CoreRun(s, disconnect, n - 1), CoreStep(disconnect, 0));
      Step(CoreRun(s, disconnect, n - 1), CoreStep(disconnect, 0))
  }

  lemma CoreNextStep(s: State, disconnect: bool, n: nat)
    requires Inv(s)
    ensures var a := CoreRun(s, disconnect, n);
            CoreRun(s, disconnect, n + 1) ==
            State(CoreDev(a.d, a.core, disconnect, 0), a.pcs, CoreNext(a.d, a.core, disconnect))
  {
    hide Inv, CoreDev, CoreNext;
  }

  /** A reset with io_mutex free and no writes in flight: the read URB cancelled, io_mutex free again,
      and -EPIPE for whoever comes next. */
  lemma ResetAlone(s: State)
    requires Inv(s) && s.core.Attached? && !s.d.locked && s.d.wr.anchored == {}
    ensures var s' := CoreRun(s, false, 5);
            && s'.core.Attached? && s'.pcs == s.pcs
            && !s'.d.locked && s'.d.errors == -32 && s'.d.life == s.d.life && s'.d.wr == s.d.wr
            && s'.d.rd.urb.None? && s'.d.rd.received == s.d.rd.received && s'.d.rd.consumed == s.d.rd.consumed
  {
    hide Inv;
    CoreNextStep(s, false, 0);
    CoreNextStep(s, false, 1);
    CoreNextStep(s, false, 2);
    CoreNextStep(s, false, 3);
    CoreNextStep(s, false, 4);
  }

  /** A disconnect with io_mutex free and no writes in flight: the device can no longer be opened or
      used, and the core's reference is gone. */
  lemma DisconnectAlone(s: State)
    requires Inv(s) && s.core.Attached? && !s.d.locked && s.d.wr.anchored == {}
    ensures var s' := CoreRun(s, true, 4);
            && s'.core.Gone? && s'.pcs == s.pcs
            && !s'.d.life.registered && !s'.d.life.interface && s'.d.life.kref == s.d.life.kref - 1
            && s'.d == s.d.(life := s'.d.life)
  {
    hide Inv;
    CoreNextStep(s, true, 0);
    CoreNextStep(s, true, 1);
    CoreNextStep(s, true, 2);
    CoreNextStep(s, true, 3);
  }

  /** While there are write URBs the core cancels them one by one, or waits for them; and it waits for
      io_mutex. */
  lemma CoreWaits(s: State, disconnect: bool, b: BufId)
    requires Inv(s)
    ensures var s' := Step(s, CoreStep(disconnect, b));
            && ((s.core.ResetLock? || s.core.Clear?) && s.d.locked ==> s' == s)
            && ((s.core.ResetDrain? || s.core.Kill?) && s.d.wr.anchored != {} ==>
                  s'.core == s.core && s'.d.wr.anchored == s.d.wr.anchored - {b})
  {
    hide Stream;
  }
}
