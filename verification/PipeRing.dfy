/**
 The ring buffer of protect/pipe.c.

 Pointers are offsets from `start`: `start` is 0 and `end` is the buffer length N.
 Between an advance and its wrap a pointer may equal `end`, so the functions below
 are meaningful for offsets up to and including N.
 */
module PipeRing {
  import opened Common

  // size_t is 64 bits wide; conversions to it reduce modulo 2^64.
  const SIZE_T_LIMIT: nat := 0x1_0000_0000_0000_0000

  function ToSizeT(x: int): (r: nat)
    ensures 0 <= x < SIZE_T_LIMIT ==> r == x
  {
    if 0 <= x < SIZE_T_LIMIT then x else x % SIZE_T_LIMIT
  }

  datatype Ring = Ring(data: seq<Byte>, rp: nat, wp: nat)

  /** Both pointers inside the buffer or momentarily at its end, but never both at the end. */
  predicate Bounded(r: Ring) {
    && 2 <= |r.data| < SIZE_T_LIMIT
    && r.rp <= |r.data| && r.wp <= |r.data|
    && (r.wp == |r.data| ==> 0 < r.rp < |r.data|)
  }

  /** The settled states: what every holder of the semaphore finds. */
  predicate Settled(r: Ring) {
    Bounded(r) && r.rp < |r.data| && r.wp < |r.data|
  }

  /** The bytes waiting to be read, oldest first. */
  function Contents(r: Ring): seq<Byte>
    requires Bounded(r)
  {
    if r.rp <= r.wp then r.data[r.rp..r.wp] else r.data[r.rp..] + r.data[..r.wp]
  }

  function SpaceFree(n: nat, rp: nat, wp: nat): nat {
    if rp == wp then ToSizeT(n - 1)
    else if rp < wp then ToSizeT(n + rp - wp - 1)
    else ToSizeT(rp - wp - 1)
  }

  function ReadCount(r: Ring, count: nat): nat {
    if r.wp > r.rp then Min(count, r.wp - r.rp)
    else if r.wp < r.rp && r.rp <= |r.data| then Min(count, |r.data| - r.rp)
    else count
  }

  function WriteCount(r: Ring, count: nat): nat
    requires r.wp <= |r.data|
  {
    var c := Min(count, SpaceFree(|r.data|, r.rp, r.wp));
    if r.rp > r.wp then Min(c, ToSizeT(r.rp - r.wp - 1)) else Min(c, |r.data| - r.wp)
  }

  function Wrapped(p: nat, n: nat): nat {
    if p == n then 0 else p
  }

  function Overwrite(data: seq<Byte>, at: nat, bytes: seq<Byte>): (d: seq<Byte>)
    requires at + |bytes| <= |data|
    ensures |d| == |data|
  {
    data[..at] + bytes + data[at + |bytes|..]
  }

  /** Any stretch outside the overwritten one is as before. */
  lemma OverwriteElsewhere(data: seq<Byte>, at: nat, bytes: seq<Byte>, lo: nat, hi: nat)
    requires at + |bytes| <= |data| && lo <= hi <= |data|
    requires hi <= at || at + |bytes| <= lo
    ensures Overwrite(data, at, bytes)[lo..hi] == data[lo..hi]
  {
  }

  lemma OverwriteThere(data: seq<Byte>, at: nat, bytes: seq<Byte>)
    requires at + |bytes| <= |data|
    ensures Overwrite(data, at, bytes)[at..at + |bytes|] == bytes
  {
  }

  // ---- arithmetic of the ring, for any N >= 2 ----

  /** Free space and occupancy always add up to N - 1, also while a pointer is at `end`. */
  lemma SpacePlusOccupancy(r: Ring)
    requires Bounded(r)
    ensures SpaceFree(|r.data|, r.rp, r.wp) + |Contents(r)| == |r.data| - 1
  {
  }

  /** An unlocked test cannot tell a pointer at `end` from the same pointer wrapped, except
      that `wp != rp` may be spuriously true; it is never spuriously false. */
  lemma TransientAgreesWithWrapped(r: Ring)
    requires Bounded(r)
    ensures var w := r.(rp := Wrapped(r.rp, |r.data|), wp := Wrapped(r.wp, |r.data|));
            && Settled(w) && Contents(w) == Contents(r)
            && SpaceFree(|r.data|, r.rp, r.wp) == SpaceFree(|r.data|, w.rp, w.wp)
            && (w.wp != w.rp ==> r.wp != r.rp)
            && (Contents(r) != [] <==> w.wp != w.rp)
  {
  }

  /** A read that passes its guard moves at least one byte if asked for one, and stops short of
      `count` only at the end of the queue or of the buffer. */
  lemma ReadFits(r: Ring, count: nat)
    requires Settled(r) && r.wp != r.rp
    ensures var k := ReadCount(r, count);
            && k <= count && (count >= 1 ==> k >= 1) && r.rp + k <= |r.data|
            && (r.rp < r.wp ==> r.rp + k <= r.wp)
            && k <= |Contents(r)|
            && (k < count ==> k == |Contents(r)| || r.rp + k == |r.data|)
            && Bounded(r.(rp := r.rp + k))
  {
  }

  /** The bytes between `rp` and its new position are a prefix of the queue. */
  lemma ReadTakesPrefix(r: Ring, k: nat)
    requires Settled(r) && r.rp + k <= |r.data| && Bounded(r.(rp := r.rp + k))
    requires r.rp <= r.wp ==> r.rp + k <= r.wp
    ensures Contents(r) == r.data[r.rp..r.rp + k] + Contents(r.(rp := r.rp + k))
  {
    if r.rp <= r.wp {
      assert r.data[r.rp..r.wp] == r.data[r.rp..r.rp + k] + r.data[r.rp + k..r.wp];
    } else {
      assert r.data[r.rp..] == r.data[r.rp..r.rp + k] + r.data[r.rp + k..];
    }
  }

  /** A write that passes its guard stores at least one byte if it has one, stops short only at
      the last free slot or the end of the buffer, and fits before the read pointer. */
  lemma WriteFits(r: Ring, count: nat)
    requires Settled(r) && SpaceFree(|r.data|, r.rp, r.wp) != 0
    ensures var k := WriteCount(r, count);
            && k <= count && (count >= 1 ==> k >= 1) && r.wp + k <= |r.data|
            && |Contents(r)| + k <= |r.data| - 1
            && (k < count ==> |Contents(r)| + k == |r.data| - 1 || r.wp + k == |r.data|)
            && (r.rp > r.wp ==> r.wp + k < r.rp)
            && Bounded(r.(wp := r.wp + k))
  {
    SpacePlusOccupancy(r);
  }

  /** What a write stores extends the queue. */
  lemma WriteAppends(r: Ring, bytes: seq<Byte>)
    requires Settled(r) && r.wp + |bytes| <= |r.data| && Bounded(r.(wp := r.wp + |bytes|))
    requires r.rp > r.wp ==> r.wp + |bytes| < r.rp
    ensures var r' := Ring(Overwrite(r.data, r.wp, bytes), r.rp, r.wp + |bytes|);
            Bounded(r') && Contents(r') == Contents(r) + bytes
  {
    var d := Overwrite(r.data, r.wp, bytes);
    var end := r.wp + |bytes|;
    OverwriteThere(r.data, r.wp, bytes);
    if r.rp <= r.wp {
      OverwriteElsewhere(r.data, r.wp, bytes, r.rp, r.wp);
      assert d[r.rp..end] == d[r.rp..r.wp] + d[r.wp..end];
    } else {
      OverwriteElsewhere(r.data, r.wp, bytes, r.rp, |d|);
      OverwriteElsewhere(r.data, r.wp, bytes, 0, r.wp);
      assert d[..end] == d[0..r.wp] + d[r.wp..end];
    }
  }

  /** A store into the free area, at the write pointer, leaves the queue unchanged. */
  lemma FreeAreaIsNotContents(r: Ring, bytes: seq<Byte>)
    requires Settled(r) && r.wp + |bytes| <= |r.data|
    requires r.rp > r.wp ==> r.wp + |bytes| < r.rp
    ensures Contents(r.(data := Overwrite(r.data, r.wp, bytes))) == Contents(r)
  {
    if r.rp > r.wp {
      OverwriteElsewhere(r.data, r.wp, bytes, r.rp, |r.data|);
      OverwriteElsewhere(r.data, r.wp, bytes, 0, r.wp);
    } else {
      OverwriteElsewhere(r.data, r.wp, bytes, r.rp, r.wp);
    }
  }

  /** The ring after `k` bytes were read, wrap included. */
  function AfterRead(r: Ring, k: nat): Ring {
    r.(rp := Wrapped(r.rp + k, |r.data|))
  }

  /** The ring after `bytes` were written, wrap included. */
  function AfterWrite(r: Ring, bytes: seq<Byte>): Ring
    requires r.wp + |bytes| <= |r.data|
  {
    Ring(Overwrite(r.data, r.wp, bytes), r.rp, Wrapped(r.wp + |bytes|, |r.data|))
  }

  lemma ReadDequeues(r: Ring, count: nat)
    requires Settled(r) && r.wp != r.rp
    ensures var k := ReadCount(r, count);
            && (count >= 1 ==> k >= 1)
            && r.rp + k <= |r.data| && Settled(AfterRead(r, k))
            && Contents(r) == r.data[r.rp..r.rp + k] + Contents(AfterRead(r, k))
  {
    hide Contents;
    ReadFits(r, count);
    ReadTakesPrefix(r, ReadCount(r, count));
    var moved := r.(rp := r.rp + ReadCount(r, count));
    TransientAgreesWithWrapped(moved);
    assert AfterRead(r, ReadCount(r, count)) ==
           moved.(rp := Wrapped(moved.rp, |r.data|), wp := Wrapped(moved.wp, |r.data|));
  }

  lemma WriteEnqueues(r: Ring, bytes: seq<Byte>)
    requires Settled(r) && SpaceFree(|r.data|, r.rp, r.wp) != 0
    ensures var k := WriteCount(r, |bytes|);
            && k <= |bytes| && (|bytes| >= 1 ==> k >= 1)
            && r.wp + k <= |r.data| && Settled(AfterWrite(r, bytes[..k]))
            && Contents(AfterWrite(r, bytes[..k])) == Contents(r) + bytes[..k]
  {
    var k := WriteCount(r, |bytes|);
    WriteFits(r, |bytes|);
    WriteAppends(r, bytes[..k]);
    TransientAgreesWithWrapped(Ring(Overwrite(r.data, r.wp, bytes[..k]), r.rp, r.wp + k));
  }

  // ---- the device ----

  datatype Outcome = WouldBlock | Fault | Moved(bytes: seq<Byte>)

  /** The buffer and its two pointers, updated in place. Each method is what runs between taking
      and releasing the semaphore; `WouldBlock` is the wait loop's guard holding. */
  class PipeBuffer {
    var data: array<Byte>
    var rp: nat
    var wp: nat

    ghost function View(): Ring
      reads this, data
    {
      Ring(data[..], rp, wp)
    }

    ghost predicate Valid()
      reads this, data
    {
      Settled(View())
    }

    constructor (n: nat)
      requires 2 <= n < SIZE_T_LIMIT
      ensures Valid() && fresh(data) && data.Length == n && Contents(View()) == []
    {
      data := new Byte[n](_ => 0);
      rp, wp := 0, 0;
    }

    method FreeSpace() returns (space: nat)
      requires Valid()
      ensures space + |Contents(View())| == data.Length - 1
      ensures space == SpaceFree(data.Length, rp, wp)
    {
      SpacePlusOccupancy(View());
      if rp == wp {
        return data.Length - 1;
      }
      if rp < wp {
        return data.Length + rp - wp - 1;
      } else {
        return rp - wp - 1;
      }
    }

    method Read(count: nat, fault: bool) returns (out: Outcome)
      requires Valid()
      modifies this`rp
      ensures Valid()
      ensures out.WouldBlock? <==> old(Contents(View())) == []
      ensures !out.Moved? ==> View() == old(View())
      ensures out.Fault? <==> fault && !out.WouldBlock?
      ensures out.Moved? ==>
                && |out.bytes| == ReadCount(old(View()), count) <= count
                && View() == AfterRead(old(View()), |out.bytes|)
                && out.bytes + Contents(View()) == old(Contents(View()))
                && (count >= 1 ==> |out.bytes| >= 1)
    {
      hide Contents;
      ghost var was := View();
      TransientAgreesWithWrapped(was);
      if wp == rp {
        return WouldBlock;
      }
      var n := ClipRead(count);
      if fault {
        return Fault;
      }
      ReadDequeues(was, count);
      out := Moved(data[rp..rp + n]);
      rp := rp + n;
      if rp == data.Length {
        rp := 0;
      }
      assert View() == AfterRead(was, n);
    }

    method ClipRead(count: nat) returns (n: nat)
      requires Valid() && wp != rp
      ensures n == ReadCount(View(), count)
    {
      n := count;
      if wp > rp {
        n := Min(n, wp - rp);
      }
      if wp < rp {
        n := Min(n, data.Length - rp);
      }
    }

    /** A failing copy may have stored the first `copied` bytes. */
    method Write(bytes: seq<Byte>, fault: bool, copied: nat) returns (out: Outcome)
      requires Valid()
      modifies this`wp, data
      ensures Valid()
      ensures out.WouldBlock? <==> |old(Contents(View()))| == data.Length - 1
      ensures !out.Moved? ==> rp == old(rp) && wp == old(wp) && Contents(View()) == old(Contents(View()))
      ensures out.Fault? <==> fault && !out.WouldBlock?
      ensures out.Moved? ==>
                && out.bytes <= bytes && |out.bytes| == WriteCount(old(View()), |bytes|)
                && Contents(View()) == old(Contents(View())) + out.bytes
                && (bytes != [] ==> out.bytes != [])
    {
      hide Contents;
      ghost var was := View();
      var space := FreeSpace();
      if space == 0 {
        return WouldBlock;
      }
      var n := ClipWrite(|bytes|, space);
      if fault {
        WriteFits(was, |bytes|);
        FreeAreaIsNotContents(was, bytes[..Min(copied, n)]);
        CopyIn(bytes[..Min(copied, n)]);
        assert View() == was.(data := Overwrite(was.data, was.wp, bytes[..Min(copied, n)]));
        return Fault;
      }
      WriteEnqueues(was, bytes);
      Store(bytes[..n]);
      out := Moved(bytes[..n]);
    }

    method Store(bytes: seq<Byte>)
      requires wp + |bytes| <= data.Length
      modifies this`wp, data
      ensures View() == AfterWrite(old(View()), bytes)
    {
      CopyIn(bytes);
      wp := wp + |bytes|;
      if wp == data.Length {
        wp := 0;
      }
    }

    method ClipWrite(count: nat, space: nat) returns (n: nat)
      requires Valid() && space == SpaceFree(data.Length, rp, wp)
      ensures n == WriteCount(View(), count)
    {
      n := Min(count, space);
      if rp > wp {
        n := Min(n, rp - wp - 1);
      }
      if rp <= wp {
        n := Min(n, data.Length - wp);
      }
    }

    /** The byte copy itself: `bytes` land at the write pointer. */
    method CopyIn(bytes: seq<Byte>)
      requires wp + |bytes| <= data.Length
      modifies data
      ensures data[..] == Overwrite(old(data[..]), wp, bytes)
    {
      for i := 0 to |bytes|
        invariant data[..] == Overwrite(old(data[..]), wp, bytes[..i])
      {
        data[wp + i] := bytes[i];
      }
      assert bytes[..|bytes|] == bytes;
    }

    method Reset()
      requires Valid()
      modifies this`rp, this`wp
      ensures Valid() && Contents(View()) == [] && data[..] == old(data[..])
    {
      wp := 0;
      rp := 0;
    }
  }
}
