# URB-based USB CDC driver: blocking read/write and module init/exit

This project models the core of the URB-based USB bulk driver in
`usb_device/Usb_host/usb_urb_cdc.c` and proves properties of that model. Its
`cdc_read` and `cdc_write` turn one asynchronous, completion-driven bulk transfer
into a blocking call. Each allocates what it needs, fills and submits a URB, waits
for completion, reads `actual_length`, and moves bytes between the caller and the
transfer buffer. Every early return must free exactly what was allocated up to
that point. `cdc_init` and `cdc_exit` follow the same allocate/register/free
pattern for the anchor.

The model is a resource-lifecycle state machine, not USB I/O:

- **Kernel calls are oracles.** `kmalloc`, `kzalloc`, `usb_alloc_urb`,
  `usb_submit_urb`, `usb_register`, the completion, `copy_to_user` and
  `copy_from_user` do not run. What each of them answers is a field of a
  `ReadOracle`, `WriteOracle` or `InitOracle` parameter.
- **Resource and transfer calls are logged.** Every allocation, free,
  registration, submit, wait and user copy is a `KernelCall` that records the
  call together with its outcome. The fill is `Urb.Fill`, and the pipe a
  constant `Pipe`; neither is logged. From a log of calls, module `Kernel`
  computes:
  - what is still live (`Live`);
  - which step failed first (`FirstFailure`);
  - which negative error number that step stands for (`Errno`):
    - `-ENOMEM` (12) for a failed allocation;
    - `-EFAULT` (14) for a failed copy;
    - the kernel's own code for a rejected submit or registration.
- **Reference functions.** Module `CdcSpec` holds one pure function per entry
  point: `ReadSpec`, `WriteSpec`, `InitSpec`, and the function `ExitCalls`.
  Each gives the return value, the bytes moved and the exact call log of its
  entry point. The lemmas beside them state the release discipline, the error
  mapping and the `min(...)` length clamps.
- **The driver.** Module `UrbCdc` is the driver itself, as imperative code:
  - class `Urb` holds the fields of `struct urb` that the driver sets or reads;
  - class `CdcDriver` holds the module-level state: the 512-byte `data` array
    (initially "LED" followed by zeros), the global `read_urb` and `write_urb`
    pointers, counters for live receive buffers and URBs, flags for the anchor
    and the registration, and a ghost log of all kernel calls.

  Each entry point changes this state step by step, in the source's order. Each
  is proved to return what its reference function returns, to append exactly
  that function's log, and to keep the counters in agreement with the log.
- **The one assumption.** The USB core never reports more than the requested
  length in `actual_length`. The code relies on this without checking it. It is
  a precondition of the completion steps `Urb.CompleteIn` and `Urb.CompleteOut`,
  and so of `CdcDriver.Read` and `CdcDriver.Write`.

Two behaviours of the code are easy to misread:

- `read` does not return at most the caller's buffer size.
  `cdc_read` returns `actual_length` (line 219), not the number of bytes it copied
  (`min(actual_length, usize)`, line 206). So when the device sends more than the
  caller's buffer holds, the return value exceeds the bytes copied.
  `CdcSpec.ReadMayReportMoreThanRequested` exhibits this.
- Neither `read` nor `write` looks at `urb->status`. A transfer that completes
  with an error (a stall, or a disconnect during the wait) still returns
  `actual_length` as a success (lines 203, 219, 264 and 270). The model does the
  same: the completion yields only the received bytes or `actual_length`, which
  may be anything up to the requested length, and there is no error outcome for it.

## Model

| member | source | states |
|---|---|---|
| Kernel.Min | usb_device/Usb_host/usb_urb_cdc.c:206 | the clamp used for every byte count is at most both operands and equals one of them |
| Kernel.Errno | usb_device/Usb_host/usb_urb_cdc.c:169-258 | a failed step maps to a negative result: `-ENOMEM` for an allocation, `-EFAULT` for a user copy, the kernel's own code for a submit or a registration |
| Kernel.FirstFailure | usb_device/Usb_host/usb_urb_cdc.c:169-212 | the index found is a failed call with no failed call before it; no index means no call failed |
| CdcSpec.ReadSpec | usb_device/Usb_host/usb_urb_cdc.c:158-220 | defines read's return value, the bytes it gives the caller and its call log in the source's order; its contract: the caller never receives more than `usize` bytes, and an error result gives the caller nothing |
| CdcSpec.WriteSpec | usb_device/Usb_host/usb_urb_cdc.c:222-271 | defines write's return value, the new contents of `data` and its call log in the source's order; its contract: the first call is the URB allocation, `data` stays 512 bytes, and every byte past `min(usize, 512)` keeps its old value |
| CdcSpec.InitSpec | usb_device/Usb_host/usb_urb_cdc.c:72-98 | defines init's return value and call log; its contract: the first call is the anchor allocation, the result is never positive, and it is 0 exactly when the allocation and the registration both succeed |
| CdcSpec.ExitCalls | usb_device/Usb_host/usb_urb_cdc.c:101-106 | exit's call log: it deregisters first and releases exactly the registration and the anchor, nothing else |
| CdcSpec.InitialData | usb_device/Usb_host/usb_urb_cdc.c:41 | the shared buffer is 512 bytes: 'L', 'E', 'D', then zeros |
| CdcSpec.ReadAllocationFailure | usb_device/Usb_host/usb_urb_cdc.c:169-184 | a failed buffer or URB allocation returns -ENOMEM and never touches the device; a failed buffer allocation never tries the URB |
| CdcSpec.ReadSubmitFailure | usb_device/Usb_host/usb_urb_cdc.c:190-197 | a rejected submit returns the submit code unchanged and neither waits nor copies |
| CdcSpec.ReadRequestsFullUnit | usb_device/Usb_host/usb_urb_cdc.c:166-190 | every read submission is a 512-byte bulk IN transfer on endpoint 0x81, whatever `usize` is |
| CdcSpec.ReadCopiesClampedPrefix | usb_device/Usb_host/usb_urb_cdc.c:200-212 | after completion exactly `min(actual_length, usize)` bytes are copied, and they are a prefix of what the device sent; success returns `actual_length`, a faulting copy returns -EFAULT |
| CdcSpec.ReadReleasesAll | usb_device/Usb_host/usb_urb_cdc.c:169-219 | on every path the read log leaves nothing live; the buffer is freed exactly once when it was allocated, and so is the URB |
| CdcSpec.ReadErrorIsFirstFailure | usb_device/Usb_host/usb_urb_cdc.c:169-219 | read returns a negative value iff some step failed, and the value is that first failed step's error; after a failure only frees follow |
| CdcSpec.ReadMayReportMoreThanRequested | usb_device/Usb_host/usb_urb_cdc.c:203-219 | with a 2-byte caller buffer and 4 received bytes, read copies 2 bytes but returns 4 |
| CdcSpec.ReadPong | usb_device/Usb_host/usb_urb_cdc.c:158-220 | a device sending "PONG" to a 10-byte read yields exactly "PONG", return value 4, and the full allocate/submit/wait/copy/free log |
| CdcSpec.WriteStagesClampedPrefix | usb_device/Usb_host/usb_urb_cdc.c:241-249 | the first `min(usize, 512)` bytes of `data` become the caller's bytes, the rest keep their contents, and the OUT submission asks for exactly that count |
| CdcSpec.WriteEarlyFailure | usb_device/Usb_host/usb_urb_cdc.c:232-246 | a failed URB allocation returns -ENOMEM and a faulting copy returns -EFAULT; both leave `data` untouched and never touch the device |
| CdcSpec.WriteAfterSubmit | usb_device/Usb_host/usb_urb_cdc.c:252-270 | a rejected submit returns its code without waiting; a completed write returns `actual_length`, at most the staged count |
| CdcSpec.WriteReleasesAll | usb_device/Usb_host/usb_urb_cdc.c:232-270 | on every path the write log leaves nothing live; the URB is freed exactly once when it was allocated; no buffer is allocated |
| CdcSpec.WriteErrorIsFirstFailure | usb_device/Usb_host/usb_urb_cdc.c:232-270 | write returns a negative value iff some step failed, and the value is that first failed step's error; after a failure only frees follow |
| CdcSpec.WriteKeepsStaleTail | usb_device/Usb_host/usb_urb_cdc.c:241-249 | writing one byte "X" after module load leaves "XED" at the front of `data` |
| CdcSpec.WriteTruncatesToUnit | usb_device/Usb_host/usb_urb_cdc.c:241-249 | a 600-byte write stages and submits only the first 512 bytes |
| CdcSpec.LoopbackRoundTrip | usb_device/Usb_host/usb_urb_cdc.c:158-271 | if a device echoes what a write sent, reading it back with a large enough buffer returns exactly the written bytes |
| CdcSpec.InitExitLifecycle | usb_device/Usb_host/usb_urb_cdc.c:72-106 | init fails with -ENOMEM without registering when the anchor allocation fails; when registration fails it frees the anchor and returns the code; otherwise it returns 0 holding both, and exit then gives both back |
| CdcSpec.InitErrorIsFirstFailure | usb_device/Usb_host/usb_urb_cdc.c:77-97 | init returns a negative value iff a step failed, and the value is that first failed step's error |
| UrbCdc.Urb.constructor | usb_device/Usb_host/usb_urb_cdc.c:178 | a new URB has no buffer and zero lengths |
| UrbCdc.Urb.Fill | usb_device/Usb_host/usb_urb_cdc.c:187 | filling sets the pipe, the transfer buffer and the transfer length |
| UrbCdc.Urb.Submit | usb_device/Usb_host/usb_urb_cdc.c:190 | a submission passes the kernel's code through, and only a non-negative code puts the URB in flight |
| UrbCdc.Urb.CompleteIn | usb_device/Usb_host/usb_urb_cdc.c:200-203 | an IN completion writes the received bytes at the start of the buffer, leaves the rest alone and sets `actual_length` to their count |
| UrbCdc.Urb.CompleteOut | usb_device/Usb_host/usb_urb_cdc.c:261-264 | an OUT completion sets `actual_length`, at most the transfer length |
| UrbCdc.Urb.Release | usb_device/Usb_host/usb_urb_cdc.c:195 | freeing a URB marks it released |
| UrbCdc.CdcDriver.constructor | usb_device/Usb_host/usb_urb_cdc.c:41 | at module load `data` holds "LED" then zeros, nothing is held and no URB exists |
| UrbCdc.CdcDriver.Read | usb_device/Usb_host/usb_urb_cdc.c:158-220 | read returns `ReadSpec`'s value and bytes, appends exactly its log, leaves every counter as it was, and leaves `read_urb` unchanged when kmalloc fails, null when usb_alloc_urb fails, and otherwise pointing to the freed 512-byte IN URB |
| UrbCdc.CdcDriver.ReadTransfer | usb_device/Usb_host/usb_urb_cdc.c:186-219 | after both allocations, fill, submit, wait, copy and free follow `ReadSpec` and free one buffer and one URB |
| UrbCdc.CdcDriver.Write | usb_device/Usb_host/usb_urb_cdc.c:222-271 | write returns `WriteSpec`'s value, leaves `data` as `WriteSpec` says, appends exactly its log and leaves every counter as it was; `write_urb` is null when usb_alloc_urb fails, otherwise a freed URB, and when the copy-in succeeded it pointed at `data` with length `min(usize, 512)` |
| UrbCdc.CdcDriver.WriteStaged | usb_device/Usb_host/usb_urb_cdc.c:240-270 | after the URB allocation, copy-in, fill, submit, wait and free follow `WriteSpec` and free one URB |
| UrbCdc.CdcDriver.Init | usb_device/Usb_host/usb_urb_cdc.c:72-98 | init returns `InitSpec`'s value, appends its log, and holds the anchor and the registration exactly when it returned 0 |
| UrbCdc.CdcDriver.Exit | usb_device/Usb_host/usb_urb_cdc.c:101-106 | exit deregisters, frees the anchor, and holds neither afterwards |

## Left out

- `usb_device/Usb_host/xusb_cdc.c` is not part of this model. Its read returns 0, and its write is a single `usb_bulk_msg` passthrough.
- Probe, disconnect, open and close are left out as bus plumbing. So are the `file_operations` and device-ID tables, `usb_register_dev` and the class registration.
- The completion mechanics are left out as concurrency. This covers the global completions, `complete`, `wait_for_completion` and the two callbacks. The wait is one step that yields `actual_length`. Racing callers that share `read_urb`, `write_urb` or `data` are not modelled. Liveness is not modelled either: the wait hangs if the device never completes.
- The anchor's spinlock and list initialisation are left out, because nothing in the core reads them. The anchor is a flag.
- The kernel APIs' internals are foreign calls. This covers the pipe encoding of `usb_rcvbulkpipe` and `usb_sndbulkpipe`; the model keeps the direction and the endpoint address. It also covers `kmalloc`'s uninitialised contents; the receive buffer's contents are unspecified, as `kmalloc`'s are, and only the bytes the device wrote are ever copied out (`Urb.CompleteIn`, `CdcDriver.ReadTransfer`).
- `printk` logging is left out.
- `CdcDriver.Read`, `CdcDriver.Write`, `Urb.CompleteIn`, `Urb.CompleteOut`: require `actual_length` to be at most the requested length. The source trusts the USB core for this.
- `CdcSpec.ReadCopiesClampedPrefix`, `CdcSpec.WriteEarlyFailure`: a faulting `copy_to_user` or `copy_from_user` is modelled as copying nothing. The real calls may copy part of the bytes before faulting, and a faulting `copy_from_user` zero-fills the bytes it did not copy, so on that -EFAULT path the real `data` may be partly overwritten while the model leaves it untouched.
- `CdcSpec.ReadSpec`, `CdcSpec.WriteSpec`: a user copy of zero bytes may still be given a failing outcome by the oracle, although the real `copy_to_user` and `copy_from_user` never fault when asked for no bytes. The model therefore admits an -EFAULT when the copy count is 0 (for example `usize == 0`), which the real driver cannot return.
- `CdcDriver.Init`, `CdcDriver.Exit`: init is only modelled on a module that holds neither the anchor nor the registration, and exit only after an init that returned 0. This is how the kernel calls `module_init` and `module_exit`.
- `ssize_t` and `int` widths are not modelled, because all byte counts are at most 512.
