/**
 The one-buffer read cache of usb/usb-skeleton.c, updated in place. Each method is what runs with
 `io_mutex` held and no read URB in flight, or in the completion; its contract is the function of
 UsbDevice that the transition system uses.
 */
module UsbReadCache {
  import opened Common
  import opened UsbDevice
  import opened UsbSystem

  lemma FitsBuffer(d: ReadSide)
    requires Stream(d) && d.urb.Some?
    ensures d.urb.value <= |d.buffer|
  {
  }

  class ReadCache {
    var ongoing: bool
    var filled: nat
    var copied: nat
    var urb: Option<nat>
    const buffer: array<Byte>
    ghost var received: seq<Byte>
    ghost var consumed: seq<Byte>
    ghost var bad: nat
    ghost var submits: nat
    ghost var completes: nat

    ghost function View(): ReadSide
      reads this, buffer
    {
      ReadSide(ongoing, filled, copied, buffer[..], urb, received, consumed, bad, submits, completes)
    }

    ghost predicate Valid()
      reads this, buffer
    {
      Stream(View())
    }

    constructor (size: nat)
      ensures Valid() && fresh(buffer) && buffer.Length == size && received == consumed == []
    {
      buffer := new Byte[size](_ => 0);
      ongoing, filled, copied, urb := false, 0, 0, None;
      received, consumed, bad, submits, completes := [], [], 0, 0, 0;
    }

    /** skel_do_read_io. */
    method StartRead(count: nat, submitted: bool)
      requires Valid() && !ongoing && copied == filled
      modifies this
      ensures Valid() && View() == DoReadIo(old(View()), count, submitted)
    {
      ongoing := true;
      filled := 0;
      copied := 0;
      if submitted {
        urb, submits := Some(Min(buffer.Length, count)), submits + 1;
      } else {
        ongoing := false;
      }
    }

    /** The controller's transfer into the buffer. */
    method StorePayload(payload: seq<Byte>)
      requires |payload| <= buffer.Length
      modifies buffer
      ensures buffer[..] == payload + old(buffer[..])[|payload|..]
    {
      ghost var was := buffer[..];
      for i := 0 to |payload|
        invariant forall j: nat :: j < buffer.Length ==> buffer[j] == if j < i then payload[j] else was[j]
      {
        buffer[i] := payload[i];
      }
    }

    /** skel_read_bulk_callback; `payload` is what the controller stored. */
    method Complete(status: int, payload: seq<Byte>)
      requires Valid() && urb.Some? && |payload| <= urb.value
      modifies this, buffer
      ensures Valid() && View() == CompleteRead(old(View()), status, payload)
      ensures received == old(received) + if status == 0 then payload else []
      ensures buffer[copied..filled] == if status == 0 then payload else []
    {
      hide Stream;
      ghost var was := View();
      CompletionKeepsStream(was, status, payload);
      assert |payload| <= buffer.Length by { FitsBuffer(was); }
      StorePayload(payload);
      if status == 0 {
        filled, received := |payload|, received + payload;
      }
      bad := if status != 0 || payload == [] then bad + 1 else bad;
      ongoing, urb, completes := false, None, completes + 1;
      assert View() == CompleteRead(was, status, payload);
      hide CompleteRead;
      CompletionDelivers(was, status, payload);
    }

    /** skel_read once the URB is idle and no error is pending: None means go round `retry`. */
    method HandOut(count: nat, submitted: bool) returns (chunk: Option<seq<Byte>>)
      requires Valid() && !ongoing
      modifies this
      ensures Valid() && View() == ReadFromBuffer(old(View()), count, submitted)
      ensures chunk.Some? <==> old(copied) < old(filled)
      ensures chunk.Some? ==> consumed == old(consumed) + chunk.value
      ensures chunk.Some? ==> |chunk.value| == Min(old(filled - copied), count)
      ensures chunk.None? ==> consumed == old(consumed)
    {
      ghost var was := View();
      BufferKeepsStream(was, count, submitted);
      if filled == 0 {
        StartRead(count, submitted);
        return None;
      }
      var available := filled - copied;
      if available == 0 {
        StartRead(count, submitted);
        return None;
      }
      var n := Min(available, count);
      chunk := Some(buffer[copied..copied + n]);
      copied, consumed := copied + n, consumed + buffer[copied..copied + n];
      ghost var left := buffer[copied..filled];
      assert was.buffer[was.copied..filled] == was.buffer[was.copied..copied] + left;
      assert received == consumed + left;
      if available < count {
        StartRead(count - n, submitted);
      }
    }
  }
}
