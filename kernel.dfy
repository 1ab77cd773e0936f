/**
 * The kernel services the URB-based CDC driver calls, seen as a log of calls
 * with their outcomes. Every call the driver makes (allocate, free, register,
 * submit, wait, copy across the user boundary) is one `KernelCall`; what the
 * kernel answered is part of the record. Resource accounting, "which step
 * failed first" and the error number a failed step stands for are all
 * functions of such a log.
 */
module Kernel {

  // Error numbers, returned negated.
  const ENOMEM: int := 12
  const EFAULT: int := 14

  // Endpoint addresses and transfer size of the driver.
  const EP_IN: nat := 0x81
  const EP_OUT: nat := 0x01
  const BUFSIZE: nat := 512

  datatype Option<T> = None | Some(value: T)

  /** Things a call can acquire and must give back. */
  datatype Resource =
    | TransferBuffer      // kmalloc'd receive buffer
    | UrbDescriptor       // usb_alloc_urb
    | Anchor              // kzalloc'd usb_anchor
    | DriverRegistration  // usb_register

  /** A bulk pipe: the direction and the endpoint address it targets. */
  datatype Pipe = BulkIn(endpoint: nat) | BulkOut(endpoint: nat)

  const ReadPipe: Pipe := BulkIn(EP_IN)
  const WritePipe: Pipe := BulkOut(EP_OUT)

  /** One call into the kernel together with the outcome it had. */
  datatype KernelCall =
    | Alloc(res: Resource, ok: bool)              // kmalloc, kzalloc, usb_alloc_urb
    | Free(res: Resource)                         // kfree, usb_free_urb
    | Register(code: int)                         // usb_register
    | Deregister                                  // usb_deregister
    | Submit(pipe: Pipe, length: nat, code: int)  // usb_submit_urb of a filled bulk URB
    | Wait(pipe: Pipe, actual: nat)               // wait_for_completion, then actual_length
    | CopyToUser(count: nat, ok: bool)
    | CopyFromUser(count: nat, ok: bool)

  function Min(a: nat, b: nat): (m: nat)
    ensures m <= a && m <= b
    ensures m == a || m == b
  {
    if a <= b then a else b
  }

  /** How one call changes the number of live instances of `r`. */
  function Delta(c: KernelCall, r: Resource): int
  {
    match c
    case Alloc(r', ok) => if r' == r && ok then 1 else 0
    case Free(r') => if r' == r then -1 else 0
    case Register(code) => if r == DriverRegistration && code >= 0 then 1 else 0
    case Deregister => if r == DriverRegistration then -1 else 0
    case _ => 0
  }

  /** Net number of instances of `r` a log leaves live. */
  function Live(calls: seq<KernelCall>, r: Resource): int
  {
    if calls == [] then 0 else Delta(calls[0], r) + Live(calls[1..], r)
  }

  lemma {:induction false} LiveAppend(a: seq<KernelCall>, b: seq<KernelCall>, r: Resource)
    ensures Live(a + b, r) == Live(a, r) + Live(b, r)
  {
    if a == [] {
      assert a + b == b;
    } else {
      assert (a + b)[1..] == a[1..] + b;
      LiveAppend(a[1..], b, r);
    }
  }

  /** How often call `c` occurs in a log. */
  function Occurrences(calls: seq<KernelCall>, c: KernelCall): nat
  {
    if calls == [] then 0 else (if calls[0] == c then 1 else 0) + Occurrences(calls[1..], c)
  }

  lemma {:induction false} OccurrencesAppend(a: seq<KernelCall>, b: seq<KernelCall>, c: KernelCall)
    ensures Occurrences(a + b, c) == Occurrences(a, c) + Occurrences(b, c)
  {
    if a == [] {
      assert a + b == b;
    } else {
      assert (a + b)[1..] == a[1..] + b;
      OccurrencesAppend(a[1..], b, c);
    }
  }

  /** Appending one call to a log changes what is live by that call's delta. */
  lemma LiveSnocs()
    ensures forall c, r :: Live([c], r) == Delta(c, r)
    ensures forall s: seq<KernelCall>, c, r :: Live(s + [c], r) == Live(s, r) + Delta(c, r)
  {
    forall c, r ensures Live([c], r) == Delta(c, r) {
      assert [c][1..] == [];
    }
    forall s: seq<KernelCall>, c, r ensures Live(s + [c], r) == Live(s, r) + Delta(c, r) {
      LiveAppend(s, [c], r);
    }
  }

  /** Appending one call to a log adds one to that call's count. */
  lemma OccurrencesSnocs()
    ensures forall c, c' :: Occurrences([c], c') == if c == c' then 1 else 0
    ensures forall s: seq<KernelCall>, c, c' :: Occurrences(s + [c], c') == Occurrences(s, c') + if c == c' then 1 else 0
  {
    forall c, c' ensures Occurrences([c], c') == if c == c' then 1 else 0 {
      assert [c][1..] == [];
    }
    forall s: seq<KernelCall>, c, c' ensures Occurrences(s + [c], c') == Occurrences(s, c') + if c == c' then 1 else 0 {
      OccurrencesAppend(s, [c], c');
    }
  }

  /** A log that gives back everything it acquired. */
  ghost predicate ReleasesAll(calls: seq<KernelCall>)
  {
    forall r: Resource :: Live(calls, r) == 0
  }

  /** Appending a log that releases everything leaves what is live unchanged. */
  lemma Unchanged(a: seq<KernelCall>, b: seq<KernelCall>)
    requires ReleasesAll(b)
    ensures Live(a + b, TransferBuffer) == Live(a, TransferBuffer)
    ensures Live(a + b, UrbDescriptor) == Live(a, UrbDescriptor)
    ensures Live(a + b, Anchor) == Live(a, Anchor)
    ensures Live(a + b, DriverRegistration) == Live(a, DriverRegistration)
  {
    LiveAppend(a, b, TransferBuffer);
    LiveAppend(a, b, UrbDescriptor);
    LiveAppend(a, b, Anchor);
    LiveAppend(a, b, DriverRegistration);
  }

  /** What an appended log leaves live adds to what was live before. */
  lemma Extended(a: seq<KernelCall>, b: seq<KernelCall>)
    ensures Live(a + b, TransferBuffer) == Live(a, TransferBuffer) + Live(b, TransferBuffer)
    ensures Live(a + b, UrbDescriptor) == Live(a, UrbDescriptor) + Live(b, UrbDescriptor)
    ensures Live(a + b, Anchor) == Live(a, Anchor) + Live(b, Anchor)
    ensures Live(a + b, DriverRegistration) == Live(a, DriverRegistration) + Live(b, DriverRegistration)
  {
    LiveAppend(a, b, TransferBuffer);
    LiveAppend(a, b, UrbDescriptor);
    LiveAppend(a, b, Anchor);
    LiveAppend(a, b, DriverRegistration);
  }

  /** Did the kernel report failure for this call? */
  predicate Failed(c: KernelCall)
  {
    match c
    case Alloc(_, ok) => !ok
    case Register(code) => code < 0
    case Submit(_, _, code) => code < 0
    case CopyToUser(_, ok) => !ok
    case CopyFromUser(_, ok) => !ok
    case _ => false
  }

  /** The error number the driver owes its caller when step `c` fails. */
  function Errno(c: KernelCall): (e: int)
    requires Failed(c)
    ensures e < 0
    ensures c.Alloc? ==> e == -ENOMEM
    ensures c.CopyToUser? || c.CopyFromUser? ==> e == -EFAULT
    ensures c.Submit? || c.Register? ==> e == c.code
  {
    match c
    case Alloc(_, _) => -ENOMEM
    case Register(code) => code
    case Submit(_, _, code) => code
    case CopyToUser(_, _) => -EFAULT
    case CopyFromUser(_, _) => -EFAULT
  }

  /** Index of the first failed call of a log, if any. */
  function FirstFailure(calls: seq<KernelCall>): (k: Option<nat>)
    ensures k.Some? ==> k.value < |calls| && Failed(calls[k.value])
    ensures k.Some? ==> forall i :: 0 <= i < k.value ==> !Failed(calls[i])
    ensures k.None? ==> forall i :: 0 <= i < |calls| ==> !Failed(calls[i])
  {
    if calls == [] then None
    else if Failed(calls[0]) then Some(0)
    else
      match FirstFailure(calls[1..])
      case None => None
      case Some(j) => Some(j + 1)
  }

  /** A log whose only failure is at index `p` (none when `p == |calls|`) and
      which only frees after it: `p` is its first failure and it unwinds. */
  lemma FailsFirstAt(calls: seq<KernelCall>, p: nat)
    requires p <= |calls|
    requires p < |calls| ==> Failed(calls[p])
    requires forall i :: 0 <= i < p ==> !Failed(calls[i])
    requires forall j :: p < j < |calls| ==> calls[j].Free?
    ensures FirstFailure(calls) == if p < |calls| then Some(p) else None
    ensures UnwindsAfterFailure(calls)
  {
  }

  /** The device is touched only by Submit and Wait. */
  predicate TouchesDevice(calls: seq<KernelCall>)
  {
    exists i :: 0 <= i < |calls| && (calls[i].Submit? || calls[i].Wait?)
  }

  /** After a failed step, a log only gives back what it holds. */
  predicate UnwindsAfterFailure(calls: seq<KernelCall>)
  {
    forall i, j :: 0 <= i < j < |calls| && Failed(calls[i]) ==> calls[j].Free?
  }
}
