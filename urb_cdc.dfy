/**
 * The driver itself: module-level state updated step by step by cdc_read,
 * cdc_write, cdc_init and cdc_exit. Every kernel call the driver makes is
 * recorded in a ghost log and reflected in the resource counters, and each
 * entry point is proved to produce exactly the outcome and the log of its
 * reference function in CdcSpec.
 */
module UrbCdc {
  import opened Kernel
  import opened CdcSpec

  /** Where a URB is in its life. */
  datatype UrbState =
    | Blank      // just returned by usb_alloc_urb
    | Filled     // usb_fill_bulk_urb done; also what a rejected submission leaves
    | InFlight   // accepted by usb_submit_urb
    | Completed  // completion signalled, actual_length valid
    | Released   // usb_free_urb done

  /** The fields of struct urb the driver sets or reads. */
  class Urb {
    var pipe: Pipe
    var transferBuffer: array?<bv8>
    var transferLength: nat
    var actualLength: nat
    var state: UrbState

    /** usb_alloc_urb: a zeroed URB with no buffer. */
    constructor ()
      ensures state == Blank && transferBuffer == null
      ensures transferLength == 0 && actualLength == 0
    {
      pipe := ReadPipe;
      transferBuffer := null;
      transferLength := 0;
      actualLength := 0;
      state := Blank;
    }

    /** usb_fill_bulk_urb: point the URB at a pipe and a buffer. */
    method Fill(p: Pipe, buffer: array<bv8>, length: nat)
      requires state == Blank && length <= buffer.Length
      modifies this
      ensures state == Filled && pipe == p && transferBuffer == buffer
      ensures transferLength == length && actualLength == old(actualLength)
    {
      pipe := p;
      transferBuffer := buffer;
      transferLength := length;
      state := Filled;
    }

    /** usb_submit_urb, whose answer `code` comes from the kernel. */
    method Submit(code: int) returns (ret: int)
      requires state == Filled
      modifies this`state
      ensures ret == code
      ensures state == if code < 0 then Filled else InFlight
    {
      ret := code;
      state := if code < 0 then Filled else InFlight;
    }

    /** Completion of a bulk IN transfer: the device's bytes land at the start
        of the transfer buffer, and actual_length is their count. The USB core
        never reports more than was requested. */
    method CompleteIn(received: seq<bv8>)
      requires state == InFlight && pipe.BulkIn? && transferBuffer != null
      requires |received| <= transferLength <= transferBuffer.Length
      modifies this`state, this`actualLength, transferBuffer
      ensures state == Completed && actualLength == |received|
      ensures transferBuffer[..|received|] == received
      ensures transferBuffer[|received|..] == old(transferBuffer[|received|..])
    {
      var buffer := transferBuffer;
      forall i | 0 <= i < |received| {
        buffer[i] := received[i];
      }
      actualLength := |received|;
      state := Completed;
    }

    /** Completion of a bulk OUT transfer: `actual` bytes were taken. */
    method CompleteOut(actual: nat)
      requires state == InFlight && pipe.BulkOut? && actual <= transferLength
      modifies this`state, this`actualLength
      ensures state == Completed && actualLength == actual
    {
      actualLength := actual;
      state := Completed;
    }

    /** usb_free_urb. */
    method Release()
      requires state != Released
      modifies this`state
      ensures state == Released
    {
      state := Released;
    }
  }

  /** The module: the shared write buffer, the global URB pointers, what is
      currently held, and the log of every kernel call made so far. */
  class CdcDriver {
    const data: array<bv8>
    var readUrb: Urb?
    var writeUrb: Urb?
    var buffers: nat      // receive buffers allocated and not yet freed
    var urbs: nat         // URBs allocated and not yet freed
    var anchor: bool      // the anchor is allocated
    var registered: bool  // usb_register succeeded and was not undone
    ghost var calls: seq<KernelCall>

    /** The counters and flags always agree with what the log leaves live. */
    ghost predicate Valid()
      reads this
    {
      && data.Length == BUFSIZE
      && buffers == Live(calls, TransferBuffer)
      && urbs == Live(calls, UrbDescriptor)
      && Live(calls, Anchor) == (if anchor then 1 else 0)
      && Live(calls, DriverRegistration) == (if registered then 1 else 0)
    }

    /** Module load: `data` holds "LED" then zeros, nothing is held yet. */
    constructor ()
      ensures Valid() && fresh(data)
      ensures data[..] == InitialData()
      ensures buffers == 0 && urbs == 0 && !anchor && !registered && calls == []
      ensures readUrb == null && writeUrb == null
    {
      data := new bv8[BUFSIZE](i => if i == 0 then 'L' as bv8 else if i == 1 then 'E' as bv8 else if i == 2 then 'D' as bv8 else 0);
      readUrb := null;
      writeUrb := null;
      buffers, urbs := 0, 0;
      anchor, registered := false, false;
      calls := [];
      new;
      assert data[..] == InitialData();
    }

    /** cdc_read, with the kernel's and the device's answers given by `o`. */
    method Read(usize: nat, o: ReadOracle) returns (ret: int, user: seq<bv8>)
      requires Valid()
      requires |o.received| <= BUFSIZE
      modifies this
      ensures Valid()
      ensures ret == ReadSpec(usize, o).ret && user == ReadSpec(usize, o).user
      ensures calls == old(calls) + ReadSpec(usize, o).calls
      ensures buffers == old(buffers) && urbs == old(urbs)
      ensures anchor == old(anchor) && registered == old(registered)
      ensures writeUrb == old(writeUrb)
      ensures !o.bufferOk ==> readUrb == old(readUrb)
      ensures o.bufferOk && !o.urbOk ==> readUrb == null
      ensures o.bufferOk && o.urbOk ==>
        && readUrb != null && fresh(readUrb)
        && readUrb.state == Released
        && readUrb.pipe == ReadPipe && readUrb.transferLength == BUFSIZE
    {
      ghost var log: seq<KernelCall>;
      if !o.bufferOk {
        log := [Alloc(TransferBuffer, false)];
        ret, user := -ENOMEM, [];
      } else {
        var buffer := new bv8[BUFSIZE];
        buffers := buffers + 1;
        log := [Alloc(TransferBuffer, true)];
        if !o.urbOk {
          readUrb := null;
          log := log + [Alloc(UrbDescriptor, false)];
          buffers := buffers - 1;
          log := log + [Free(TransferBuffer)];
          ret, user := -ENOMEM, [];
        } else {
          var urb := new Urb();
          readUrb := urb;
          urbs := urbs + 1;
          log := log + [Alloc(UrbDescriptor, true)];
          ret, user, log := ReadTransfer(usize, o, urb, buffer, log);
        }
      }
      assert log == ReadSpec(usize, o).calls;
      ReadReleasesAll(usize, o);
      Unchanged(calls, log);
      calls := calls + log;
    }

    /** The rest of cdc_read once the buffer and the URB are allocated: fill
        and submit the URB, wait for it, copy out, and free both. */
    method ReadTransfer(usize: nat, o: ReadOracle, urb: Urb, buffer: array<bv8>, ghost log: seq<KernelCall>)
      returns (ret: int, user: seq<bv8>, ghost log': seq<KernelCall>)
      requires o.bufferOk && o.urbOk && |o.received| <= BUFSIZE
      requires log == [Alloc(TransferBuffer, true)] + [Alloc(UrbDescriptor, true)]
      requires urb.state == Blank && buffer.Length == BUFSIZE
      requires buffers >= 1 && urbs >= 1
      modifies urb, buffer, this`buffers, this`urbs
      ensures ret == ReadSpec(usize, o).ret && user == ReadSpec(usize, o).user
      ensures log' == ReadSpec(usize, o).calls
      ensures buffers == old(buffers) - 1 && urbs == old(urbs) - 1
      ensures urb.state == Released && urb.pipe == ReadPipe && urb.transferLength == BUFSIZE
    {
      urb.Fill(ReadPipe, buffer, BUFSIZE);
      var code := urb.Submit(o.submitCode);
      log' := log + [Submit(ReadPipe, BUFSIZE, code)];
      if code < 0 {
        buffers := buffers - 1;
        log' := log' + [Free(TransferBuffer)];
        urb.Release();
        urbs := urbs - 1;
        log' := log' + [Free(UrbDescriptor)];
        return code, [], log';
      }
      urb.CompleteIn(o.received);
      var length := urb.actualLength;
      log' := log' + [Wait(ReadPipe, length)];
      var n := Min(length, usize);
      log' := log' + [CopyToUser(n, o.copyOk)];
      if !o.copyOk {
        ret, user := -EFAULT, [];
      } else {
        ret, user := length, buffer[..n];
      }
      buffers := buffers - 1;
      log' := log' + [Free(TransferBuffer)];
      urb.Release();
      urbs := urbs - 1;
      log' := log' + [Free(UrbDescriptor)];
    }

    /** cdc_write: `ubuf` is the caller's buffer, its length usize. */
    method Write(ubuf: seq<bv8>, o: WriteOracle) returns (ret: int)
      requires Valid()
      requires o.actualLength <= Min(|ubuf|, BUFSIZE)
      modifies this, data
      ensures Valid()
      ensures ret == WriteSpec(old(data[..]), ubuf, o).ret
      ensures data[..] == WriteSpec(old(data[..]), ubuf, o).data
      ensures calls == old(calls) + WriteSpec(old(data[..]), ubuf, o).calls
      ensures buffers == old(buffers) && urbs == old(urbs)
      ensures anchor == old(anchor) && registered == old(registered)
      ensures readUrb == old(readUrb)
      ensures !o.urbOk ==> writeUrb == null
      ensures o.urbOk ==>
        && writeUrb != null && fresh(writeUrb)
        && writeUrb.state == Released
      ensures o.urbOk && o.copyOk ==>
        && writeUrb.pipe == WritePipe && writeUrb.transferBuffer == data
        && writeUrb.transferLength == Min(|ubuf|, BUFSIZE)
    {
      ghost var log: seq<KernelCall>;
      if !o.urbOk {
        writeUrb := null;
        log := [Alloc(UrbDescriptor, false)];
        ret := -ENOMEM;
      } else {
        var urb := new Urb();
        writeUrb := urb;
        urbs := urbs + 1;
        log := [Alloc(UrbDescriptor, true)];
        ret, log := WriteStaged(ubuf, o, urb, log);
      }
      assert log == WriteSpec(old(data[..]), ubuf, o).calls;
      WriteReleasesAll(old(data[..]), ubuf, o);
      Unchanged(calls, log);
      calls := calls + log;
    }

    /** The rest of cdc_write once the URB is allocated: copy the caller's
        bytes into `data`, fill and submit the URB, wait for it, free it. */
    method WriteStaged(ubuf: seq<bv8>, o: WriteOracle, urb: Urb, ghost log: seq<KernelCall>)
      returns (ret: int, ghost log': seq<KernelCall>)
      requires data.Length == BUFSIZE && o.urbOk && o.actualLength <= Min(|ubuf|, BUFSIZE)
      requires log == [Alloc(UrbDescriptor, true)]
      requires urb.state == Blank && urbs >= 1
      modifies urb, data, this`urbs
      ensures ret == WriteSpec(old(data[..]), ubuf, o).ret
      ensures data[..] == WriteSpec(old(data[..]), ubuf, o).data
      ensures log' == WriteSpec(old(data[..]), ubuf, o).calls
      ensures urbs == old(urbs) - 1 && urb.state == Released
      ensures o.copyOk ==>
        urb.pipe == WritePipe && urb.transferBuffer == data && urb.transferLength == Min(|ubuf|, BUFSIZE)
    {
      var n := Min(|ubuf|, BUFSIZE);
      log' := log + [CopyFromUser(n, o.copyOk)];
      if !o.copyOk {
        urb.Release();
        urbs := urbs - 1;
        log' := log' + [Free(UrbDescriptor)];
        return -EFAULT, log';
      }
      forall i | 0 <= i < n {
        data[i] := ubuf[i];
      }
      urb.Fill(WritePipe, data, n);
      var code := urb.Submit(o.submitCode);
      log' := log' + [Submit(WritePipe, n, code)];
      if code < 0 {
        urb.Release();
        urbs := urbs - 1;
        log' := log' + [Free(UrbDescriptor)];
        return code, log';
      }
      urb.CompleteOut(o.actualLength);
      var length := urb.actualLength;
      log' := log' + [Wait(WritePipe, length)];
      urb.Release();
      urbs := urbs - 1;
      log' := log' + [Free(UrbDescriptor)];
      ret := length;
    }

    /** cdc_init, on a module that holds neither the anchor nor the
        registration. */
    method Init(o: InitOracle) returns (ret: int)
      requires Valid() && !anchor && !registered
      modifies this`anchor, this`registered, this`calls
      ensures Valid()
      ensures ret == InitSpec(o).ret
      ensures calls == old(calls) + InitSpec(o).calls
      ensures anchor == registered == (ret == 0)
    {
      ghost var log: seq<KernelCall>;
      if !o.anchorOk {
        log := [Alloc(Anchor, false)];
        ret := -ENOMEM;
      } else {
        anchor := true;
        log := [Alloc(Anchor, true)];
        registered := o.registerCode >= 0;
        log := log + [Register(o.registerCode)];
        if o.registerCode < 0 {
          anchor := false;
          log := log + [Free(Anchor)];
          ret := o.registerCode;
        } else {
          ret := 0;
        }
      }
      assert log == InitSpec(o).calls;
      InitExitLifecycle(o);
      Extended(calls, log);
      calls := calls + log;
    }

    /** cdc_exit, after an init that returned 0. */
    method Exit()
      requires Valid() && anchor && registered
      modifies this`anchor, this`registered, this`calls
      ensures Valid()
      ensures calls == old(calls) + ExitCalls()
      ensures !anchor && !registered
    {
      ghost var log: seq<KernelCall>;
      registered := false;
      log := [Deregister];
      anchor := false;
      log := log + [Free(Anchor)];
      assert log == ExitCalls();
      Extended(calls, log);
      calls := calls + log;
    }
  }
}
