/** Devices over whole runs: DOIO and the interrupt handler agree on the semaphore of every
  * (sub)device, and each device serves its callers in the order of their calls. */
module Devices {
  import opened KernelTypes
  import opened KernelState
  import opened KernelInv
  import opened KernelRun
  import opened Semaphores
  import KernelTerm

  // ---------------------------------------------------------------- indices

  /** The devices a process can command: plain ones on lines 3 to 6, terminal halves on line 7. */
  datatype SubDevice = Plain(line: nat, dev: nat) | Receiver(dev: nat) | Transmitter(dev: nat)

  predicate IsSubDevice(d: SubDevice) {
    d.dev < 8 && (d.Plain? ==> 3 <= d.line <= 6)
  }

  /** The address of its command register: word 1 of the register, word 3 for a transmitter. */
  function CommandAddress(d: SubDevice): nat
    requires IsSubDevice(d)
  {
    match d
    case Plain(line, dev) => DevAddrBase(line, dev) + 0x4
    case Receiver(dev) => DevAddrBase(7, dev) + 0x4
    case Transmitter(dev) => DevAddrBase(7, dev) + 0xC
  }

  predicate InDeviceRegisters(addr: nat) {
    START_DEVREG <= addr < START_DEVREG + 5 * 0x80
  }

  /** findDeviceIndex yields the index of a device semaphore exactly for addresses in the device
    * registers.  The eight bytes above them get the index of the pseudo-clock; all other addresses an
    * index outside the array. */
  lemma IndexInRange(addr: nat)
    requires addr < WORD
    ensures 0 <= FindDeviceIndex(addr) < PSEUDOCLOCK <==> InDeviceRegisters(addr)
    ensures 0 <= FindDeviceIndex(addr) < SEMDEVLEN <==> HasSemaphore(addr)
    ensures FindDeviceIndex(addr) == PSEUDOCLOCK <==> START_DEVREG + 0x280 <= addr < START_DEVREG + 0x288
  {
  }

  /** The index of a command register names its (sub)device. */
  lemma IndexOfCommand(d: SubDevice)
    requires IsSubDevice(d)
    ensures HasSemaphore(CommandAddress(d))
    ensures IndexOf(CommandAddress(d)) ==
      match d
      case Plain(line, dev) => (line - 3) * 8 + dev
      case Receiver(dev) => 32 + 2 * dev
      case Transmitter(dev) => 33 + 2 * dev
  {
    match d
    case Plain(line, dev) => assert CommandAddress(d) == START_DEVREG + ((line - 3) * 8 + dev) * 0x10 + 0x4;
    case Receiver(dev) => TerminalIndex(2 * dev);
    case Transmitter(dev) => TerminalIndex(2 * dev + 1);
  }

  lemma TerminalIndex(half: nat)
    requires half < 16
    ensures FindDeviceIndex(START_DEVREG + 0x200 + half * 0x8 + 0x4) == 32 + half
  {
  }

  ghost predicate HasIndex(i: nat) {
    exists f :: IsSubDevice(f) && HasSemaphore(CommandAddress(f)) && IndexOf(CommandAddress(f)) == i
  }

  /** Different (sub)devices have different semaphores, and every device semaphore has its own. */
  lemma IndexIsBijective(d: SubDevice, e: SubDevice)
    requires IsSubDevice(d) && IsSubDevice(e)
    ensures HasSemaphore(CommandAddress(d)) && HasSemaphore(CommandAddress(e))
    ensures IndexOf(CommandAddress(d)) == IndexOf(CommandAddress(e)) <==> d == e
    ensures forall i: nat :: i < PSEUDOCLOCK ==> HasIndex(i)
  {
    IndexOfCommand(d);
    IndexOfCommand(e);
    forall i: nat | i < PSEUDOCLOCK ensures HasIndex(i) {
      var f :=
        if i < 32 then Plain(3 + i / 8, i % 8)
        else if i % 2 == 0 then Receiver((i - 32) / 2) else Transmitter((i - 33) / 2);
      IndexOfCommand(f);
    }
  }

  /** The handler signals the semaphore on which DOIO blocked the device's callers. */
  lemma InterruptAgreesWithDoIO(line: nat, dev: nat, reg0: nat, reg2: nat)
    requires 3 <= line <= 7 && dev < 8
    ensures InterruptKey(line, dev, reg0, reg2).Some? ==>
      exists d :: IsSubDevice(d) && HasSemaphore(CommandAddress(d)) && d.dev == dev
        && (if line == 7 then !d.Plain? else d == Plain(line, dev))
        && InterruptKey(line, dev, reg0, reg2).value.0 == IndexOf(CommandAddress(d))
        && InterruptKey(line, dev, reg0, reg2).value.1 == if d.Transmitter? then reg2 else reg0
  {
    if line < 7 {
      IndexOfCommand(Plain(line, dev));
      IndexOfRegister(line, dev);
      assert IsSubDevice(Plain(line, dev));
    } else {
      TerminalAgrees(dev, reg0, reg2);
    }
  }

  /** The handler passes the base of the register, DOIO the command word: the index is the same. */
  lemma IndexOfRegister(line: nat, dev: nat)
    requires 3 <= line <= 6 && dev < 8
    ensures HasSemaphore(DevAddrBase(line, dev)) && IndexOf(DevAddrBase(line, dev)) == (line - 3) * 8 + dev
  {
  }

  lemma TerminalAgrees(dev: nat, reg0: nat, reg2: nat)
    requires dev < 8
    ensures InterruptKey(7, dev, reg0, reg2).Some? ==>
      exists d :: IsSubDevice(d) && HasSemaphore(CommandAddress(d)) && d.dev == dev && !d.Plain?
        && InterruptKey(7, dev, reg0, reg2).value.0 == IndexOf(CommandAddress(d))
        && InterruptKey(7, dev, reg0, reg2).value.1 == if d.Transmitter? then reg2 else reg0
  {
    hide FindDeviceIndex;
    assert IsSubDevice(Receiver(dev)) && HasSemaphore(CommandAddress(Receiver(dev)));
    assert IsSubDevice(Transmitter(dev)) && HasSemaphore(CommandAddress(Transmitter(dev)));
  }

  // ---------------------------------------------------------------- what is signalled

  /** The status bytes of a terminal half that has something to report. */
  predicate Reports(reg: nat) {
    reg % 0x100 in {2, 3, 4, 5}
  }

  /** From k to k' device d is signalled: its semaphore rises by one and its first waiter, if there is one,
    * goes to the end of the ready queue with the status as its result.  Nothing else changes. */
  ghost predicate Signalled(k: K, d: SubDevice, status: nat, k': K)
    requires IsSubDevice(d)
  {
    HasSemaphore(CommandAddress(d)) &&
    var key := Dev(IndexOf(CommandAddress(d)));
    var q := Queue(k, key);
    && Get(k'.val, key) == Get(k.val, key) + 1
    && (forall other :: other != key ==> Get(k'.val, other) == Get(k.val, other))
    && Queue(k', key) == (if q == [] then [] else q[1..])
    && (forall other :: other != key ==> Queue(k', other) == Queue(k, other))
    && k'.ready == k.ready + (if q == [] then [] else [q[0]])
    && k'.pcb == (if q == [] || q[0] >= |k.pcb| then k.pcb
                  else k.pcb[q[0] := k.pcb[q[0]].(ps := k.pcb[q[0]].ps.(a0 := status))])
    && (q != [] ==> q[0] < |k.pcb|)
    && k'.free == k.free && k'.running == k.running && k'.children == k.children
    && k'.nextPid == k.nextPid && k'.count == k.count
  }

  /** What an interrupt does, by the line and the status bytes alone. */
  ghost predicate InterruptSpec(k: K, line: nat, dev: nat, reg0: nat, reg2: nat, k': K)
    requires 3 <= line <= 7 && dev < 8
  {
    && (line != 7 ==> Signalled(k, Plain(line, dev), reg0, k'))
    && (line == 7 && Reports(reg2) ==> Signalled(k, Transmitter(dev), reg2, k'))
    && (line == 7 && !Reports(reg2) && Reports(reg0) ==> Signalled(k, Receiver(dev), reg0, k'))
    && (line == 7 && !Reports(reg2) && !Reports(reg0) ==> k' == k)
  }

  /** Lines 3 to 6 always signal their device.  Line 7 signals the transmitter if and only if its status
    * byte is 2, 3, 4 or 5, otherwise the receiver if and only if its status byte is; otherwise nothing
    * changes. */
  lemma InterruptSignals(k: K, line: nat, dev: nat, reg0: nat, reg2: nat)
    requires Inv(k) && Bounded(k) && 3 <= line <= 7 && dev < 8
    ensures InterruptSpec(k, line, dev, reg0, reg2, Interrupt(k, line, dev, reg0, reg2))
    ensures line == 7 ==>
      var k' := Interrupt(k, 7, dev, reg0, reg2);
      && (Signalled(k, Transmitter(dev), reg2, k') <==> Reports(reg2))
      && (Signalled(k, Receiver(dev), reg0, k') <==> !Reports(reg2) && Reports(reg0))
      && (k' == k <==> !Reports(reg2) && !Reports(reg0))
  {
    hide Inv, Signal, Signalled, FindDeviceIndex;
    if line < 7 {
      IndexOfCommand(Plain(line, dev));
      IndexOfRegister(line, dev);
      SignalIs(k, Plain(line, dev), reg0);
    } else {
      SignalIs(k, Transmitter(dev), reg2);
      SignalIs(k, Receiver(dev), reg0);
      OneSignal(k, Transmitter(dev), reg2, Receiver(dev), reg0, Interrupt(k, line, dev, reg0, reg2));
    }
  }

  /** The device an interrupt signals. */
  function SignalledDevice(line: nat, dev: nat, reg0: nat, reg2: nat): (d: Option<SubDevice>)
    requires 3 <= line <= 7 && dev < 8
    ensures d.Some? ==> IsSubDevice(d.value)
  {
    if line != 7 then Some(Plain(line, dev))
    else if Reports(reg2) then Some(Transmitter(dev))
    else if Reports(reg0) then Some(Receiver(dev)) else None
  }

  lemma InterruptTouches(e: Event)
    requires e.InterruptE? && 3 <= e.line <= 7 && e.dev < 8
    ensures var d := SignalledDevice(e.line, e.dev, e.reg0, e.reg2);
      if d.None? then Touches(e) == None
      else HasSemaphore(CommandAddress(d.value)) && Touches(e) == Some(Dev(IndexOf(CommandAddress(d.value))))
  {
    hide FindDeviceIndex;
    if e.line < 7 {
      IndexOfCommand(Plain(e.line, e.dev));
      IndexOfRegister(e.line, e.dev);
    }
  }

  lemma SignalIs(k: K, d: SubDevice, status: nat)
    requires Inv(k) && Bounded(k) && IsSubDevice(d)
    ensures HasSemaphore(CommandAddress(d))
    ensures Signalled(k, d, status, Signal(k, Dev(IndexOf(CommandAddress(d))), status))
  {
    IndexOfCommand(d);
    hide Inv, FindDeviceIndex;
    var q := Queue(k, Dev(IndexOf(CommandAddress(d))));
    if q != [] {
      assert q[0] in q;
    }
  }

  /** A signal leaves a trace, which tells the devices apart. */
  lemma OneSignal(k: K, d: SubDevice, s: nat, e: SubDevice, t: nat, k': K)
    requires IsSubDevice(d) && IsSubDevice(e) && d != e
    ensures Signalled(k, d, s, k') ==> k' != k && !Signalled(k, e, t, k')
    ensures Signalled(k, e, t, k') ==> k' != k && !Signalled(k, d, s, k')
  {
    IndexIsBijective(d, e);
  }

  // ---------------------------------------------------------------- the calls on a device

  function PidOf(pcb: seq<Pcb>, p: nat): int {
    if p < |pcb| then pcb[p].pid else -1
  }

  /** Event e is a call of DOIO on device i.  A call is named by its position in the run. */
  predicate Calls(e: Event, i: nat) {
    e.DoIOE? && Touches(e) == Some(Dev(i))
  }

  /** The PCB that makes call m: the one running on the CPU. */
  function Caller(ks: seq<K>, es: seq<Event>, m: nat): nat {
    if m < |es| < |ks| && es[m].cpu < |ks[m].running| && ks[m].running[es[m].cpu].Some?
    then ks[m].running[es[m].cpu].value else 0
  }

  /** From call m to state n its caller has been in the queue of the device. */
  ghost predicate Open(ks: seq<K>, es: seq<Event>, m: nat, n: nat, i: nat)
    requires m < |es| < |ks| && n < |ks|
  {
    forall r :: m < r <= n ==> Caller(ks, es, m) in Queue(ks[r], Dev(i))
  }

  /** Step t terminates the caller of call m while it waits for the device. */
  ghost predicate StruckBy(ks: seq<K>, es: seq<Event>, m: nat, t: nat, i: nat)
    requires m < |es| < |ks| && t < |es|
  {
    m < t && es[t].TermE? && Open(ks, es, m, t, i) && Caller(ks, es, m) !in Queue(ks[t + 1], Dev(i))
  }

  ghost predicate Struck(ks: seq<K>, es: seq<Event>, m: nat, n: nat, i: nat)
    requires m < |es| < |ks| && n <= |es|
  {
    exists t :: 0 <= t < n && StruckBy(ks, es, m, t, i)
  }

  /** Event m is a call before state n whose caller was not terminated while it waited. */
  ghost predicate Stands(ks: seq<K>, es: seq<Event>, m: nat, n: nat, i: nat)
    requires n <= |es| < |ks|
  {
    m < n && Calls(es[m], i) && !Struck(ks, es, m, n, i)
  }

  /** An interrupt of device i. */
  predicate Interrupts(e: Event, i: nat) {
    e.InterruptE? && Touches(e) == Some(Dev(i))
  }

  /** The calls of w whose callers are among q. */
  ghost function Remaining(ks: seq<K>, es: seq<Event>, w: seq<nat>, q: seq<nat>): seq<nat> {
    if w == [] then []
    else (if Caller(ks, es, w[0]) in q then [w[0]] else []) + Remaining(ks, es, w[1..], q)
  }

  /** The unanswered calls after step n, given those before it. */
  ghost function NextWaiting(ks: seq<K>, es: seq<Event>, n: nat, i: nat, w: seq<nat>): seq<nat>
    requires n < |es| < |ks|
  {
    if Calls(es[n], i) then w + [n]
    else if Interrupts(es[n], i) then if w == [] then [] else w[1..]
    else if es[n].TermE? then Remaining(ks, es, w, Queue(ks[n + 1], Dev(i)))
    else w
  }

  /** The calls that wait for an interrupt, first come first. */
  ghost function WaitingCalls(ks: seq<K>, es: seq<Event>, n: nat, i: nat): seq<nat>
    requires n <= |es| < |ks|
  {
    if n == 0 then [] else NextWaiting(ks, es, n - 1, i, WaitingCalls(ks, es, n - 1, i))
  }

  lemma {:induction false} RemainingMembers(ks: seq<K>, es: seq<Event>, w: seq<nat>, q: seq<nat>)
    ensures forall m :: m in Remaining(ks, es, w, q) <==> m in w && Caller(ks, es, m) in q
  {
    hide Caller;
    if w != [] {
      assert w == [w[0]] + w[1..];
      RemainingMembers(ks, es, w[1..], q);
    }
  }

  /** The calls that interrupts have answered, in the order of the answers. */
  ghost function ServedCalls(ks: seq<K>, es: seq<Event>, n: nat, i: nat): seq<nat>
    requires n <= |es| < |ks|
  {
    if n == 0 then []
    else
      var s, w := ServedCalls(ks, es, n - 1, i), WaitingCalls(ks, es, n - 1, i);
      if Interrupts(es[n - 1], i) && w != [] then s + [w[0]] else s
  }

  /** The number of interrupts of device i that found nobody waiting. */
  ghost function Unclaimed(ks: seq<K>, es: seq<Event>, n: nat, i: nat): nat
    requires n <= |es| < |ks|
  {
    if n == 0 then 0
    else Unclaimed(ks, es, n - 1, i) + if Interrupts(es[n - 1], i) && Queue(ks[n - 1], Dev(i)) == [] then 1 else 0
  }

  /** The number of signals sent by terminations for processes that did not wait for device i. */
  ghost function Stray(ks: seq<K>, es: seq<Event>, n: nat, i: nat): nat
    requires n <= |es| < |ks|
  {
    if n == 0 then 0
    else
      var k, e := ks[n - 1], es[n - 1];
      Stray(ks, es, n - 1, i)
      + if e.TermE? && Shape(k) && e.cpu < NCPU then |OldCarriers(k, e, Dev(i))| else 0
  }

  /** A run in which, terminations aside, only DOIO and interrupts operate on the semaphore of device i. */
  ghost predicate DeviceRun(ks: seq<K>, es: seq<Event>, i: nat) {
    && Run(ks, es) && i < PSEUDOCLOCK && Queue(ks[0], Dev(i)) == []
    && (forall n :: 0 <= n < |es| && (es[n].PE? || es[n].VE?) ==> es[n].key != Dev(i))
  }

  // ---------------------------------------------------------------- the laws

  ghost predicate Increasing(s: seq<nat>) {
    forall a, b :: 0 <= a < b < |s| ==> s[a] < s[b]
  }

  /** Call m waits: its caller, still the same process, has been in the queue since. */
  ghost predicate Pending(ks: seq<K>, es: seq<Event>, m: nat, n: nat, i: nat)
    requires n <= |es| < |ks|
  {
    && m < n && Calls(es[m], i) && Open(ks, es, m, n, i)
    && PidOf(ks[n].pcb, Caller(ks, es, m)) == PidOf(ks[m].pcb, Caller(ks, es, m))
  }

  /** The queue of the device holds the callers of the calls w, in the same order, and all of them wait. */
  ghost predicate Aligned(ks: seq<K>, es: seq<Event>, n: nat, i: nat, w: seq<nat>)
    requires n <= |es| < |ks|
  {
    var q := Queue(ks[n], Dev(i));
    && |w| == |q|
    && forall j :: 0 <= j < |w| ==> Caller(ks, es, w[j]) == q[j] && Pending(ks, es, w[j], n, i)
  }

  /** The calls s are answered. */
  ghost predicate Closed(ks: seq<K>, es: seq<Event>, n: nat, i: nat, s: seq<nat>)
    requires n <= |es| < |ks|
  {
    forall m :: m in s ==> m < n && !Open(ks, es, m, n, i)
  }

  /** s lists the standing calls, in the order in which they were made. */
  ghost predicate ListsStanding(ks: seq<K>, es: seq<Event>, n: nat, i: nat, s: seq<nat>)
    requires n <= |es| < |ks|
  {
    Increasing(s) && forall m: nat :: m in s <==> Stands(ks, es, m, n, i)
  }

  /** The calls s are answered and the calls w wait: together they are the standing calls in order. */
  ghost predicate Lawful(ks: seq<K>, es: seq<Event>, n: nat, i: nat, s: seq<nat>, w: seq<nat>)
    requires n <= |es| < |ks|
  {
    Aligned(ks, es, n, i, w) && Closed(ks, es, n, i, s) && ListsStanding(ks, es, n, i, s + w)
  }

  ghost predicate FifoLaw(ks: seq<K>, es: seq<Event>, n: nat, i: nat)
    requires n <= |es| < |ks|
  {
    Lawful(ks, es, n, i, ServedCalls(ks, es, n, i), WaitingCalls(ks, es, n, i))
  }

  ghost predicate ValueOk(ks: seq<K>, es: seq<Event>, n: nat, i: nat)
    requires n <= |es| < |ks|
  {
    Get(ks[n].val, Dev(i)) + |Queue(ks[n], Dev(i))|
      == Get(ks[0].val, Dev(i)) + Unclaimed(ks, es, n, i) + Stray(ks, es, n, i)
  }

  // ---------------------------------------------------------------- steps

  lemma DoIOHere(k: K, cpu: nat, addr: nat, st: PState)
    requires Inv(k) && Bounded(k) && cpu < NCPU && k.running[cpu].Some? && HasSemaphore(addr)
    ensures var k', key := DoIO(k, cpu, addr, st), Dev(IndexOf(addr));
            && Get(k'.val, key) == Get(k.val, key) - 1
            && Queue(k', key) == Queue(k, key) + [k.running[cpu].value]
  {
    hide Inv, FindDeviceIndex;
    InsertBlockedNeverFails(k, cpu, Dev(IndexOf(addr)));
  }

  /** An interrupt that finds a waiter makes the first one ready, with the status as its result. */
  lemma InterruptHere(k: K, line: nat, dev: nat, reg0: nat, reg2: nat, i: nat)
    requires Inv(k) && Bounded(k) && 3 <= line <= 7 && dev < 8
    requires InterruptKey(line, dev, reg0, reg2).Some? && InterruptKey(line, dev, reg0, reg2).value.0 == i
    ensures var k', q := Interrupt(k, line, dev, reg0, reg2), Queue(k, Dev(i));
            && Get(k'.val, Dev(i)) == Get(k.val, Dev(i)) + 1
            && Queue(k', Dev(i)) == (if q == [] then [] else q[1..])
            && (if q == [] then k'.ready == k.ready && k'.pcb == k.pcb
                else
                  && k'.ready == k.ready + [q[0]]
                  && q[0] < |k.pcb|
                  && var (was, status) := (k.pcb[q[0]], InterruptKey(line, dev, reg0, reg2).value.1);
                  k'.pcb == k.pcb[q[0] := was.(ps := was.ps.(a0 := status))])
  {
    hide Inv, FindDeviceIndex;
    var q := Queue(k, Dev(i));
    if q != [] {
      assert q[0] in q;
    }
  }

  /** Only the allocation of a free PCB changes a pid. */
  lemma PidsKept(k: K, e: Event, k': K, p: nat)
    requires Inv(k) && Bounded(k) && Next(k, e, k') && p < MAXPROC && p !in k.free
    ensures |k'.pcb| == MAXPROC && k'.pcb[p].pid == k.pcb[p].pid
  {
    hide Inv, FindDeviceIndex, Enq, Deq, IsTarget, Subtree, Detached, Without, WithoutAll;
    match e {
      case CreateE(cpu, st) =>
        if k.free != [] { assert k.free[0] in k.free; }
      case InterruptE(_, line, dev, reg0, reg2) =>
        if InterruptKey(line, dev, reg0, reg2).Some? {
          InterruptHere(k, line, dev, reg0, reg2, InterruptKey(line, dev, reg0, reg2).value.0);
        }
      case TermE(cpu, pid) =>
        var t :| IsTarget(k, cpu, pid, t) && Terminates(k, cpu, t, k');
      case _ =>
    }
  }

  lemma WaitersLive(k: K, key: Key)
    requires Inv(k)
    ensures forall p :: p in Queue(k, key) ==> p < MAXPROC && p !in k.free
  {
    var loc: seq<Place> :| InvAt(k, loc);
    if key in k.blocked {
      assert Holds(k.blocked[key], loc, InQueue(key));
    }
  }

  lemma WaiterPidKept(ks: seq<K>, es: seq<Event>, n: nat, i: nat, p: nat)
    requires Run(ks, es) && n < |es| && p in Queue(ks[n], Dev(i))
    ensures PidOf(ks[n + 1].pcb, p) == PidOf(ks[n].pcb, p)
  {
    hide Inv, Queue, Bounded, Next;
    RunStep(ks, es, n);
    WaitersLive(ks[n], Dev(i));
    PidsKept(ks[n], es[n], ks[n + 1], p);
  }

  lemma RunningPidKept(ks: seq<K>, es: seq<Event>, n: nat, cpu: nat)
    requires Run(ks, es) && n < |es| && cpu < NCPU && Shape(ks[n]) && ks[n].running[cpu].Some?
    ensures var p := ks[n].running[cpu].value; PidOf(ks[n + 1].pcb, p) == PidOf(ks[n].pcb, p)
  {
    RunStep(ks, es, n);
    var loc: seq<Place> :| InvAt(ks[n], loc);
    PidsKept(ks[n], es[n], ks[n + 1], ks[n].running[cpu].value);
  }

  // ---------------------------------------------------------------- what a step does to the queue

  lemma CallInRun(ks: seq<K>, es: seq<Event>, n: nat, i: nat)
    requires Run(ks, es) && n < |es| && Calls(es[n], i)
    ensures var p := Caller(ks, es, n);
      && Queue(ks[n + 1], Dev(i)) == Queue(ks[n], Dev(i)) + [p]
      && Get(ks[n + 1].val, Dev(i)) == Get(ks[n].val, Dev(i)) - 1
      && PidOf(ks[n + 1].pcb, p) == PidOf(ks[n].pcb, p)
  {
    hide Inv, Queue, Bounded, DoIO, PidOf;
    RunStep(ks, es, n);
    DoIOHere(ks[n], es[n].cpu, es[n].addr, es[n].st);
    RunningPidKept(ks, es, n, es[n].cpu);
  }

  lemma InterruptInRun(ks: seq<K>, es: seq<Event>, n: nat, i: nat)
    requires Run(ks, es) && n < |es| && Interrupts(es[n], i)
    ensures var q := Queue(ks[n], Dev(i));
      && Queue(ks[n + 1], Dev(i)) == (if q == [] then [] else q[1..])
      && Get(ks[n + 1].val, Dev(i)) == Get(ks[n].val, Dev(i)) + 1
  {
    hide Inv, Queue, Bounded, Interrupt, InterruptKey;
    RunStep(ks, es, n);
    var e := es[n];
    InterruptHere(ks[n], e.line, e.dev, e.reg0, e.reg2, i);
  }

  lemma OnlyThese(ks: seq<K>, es: seq<Event>, n: nat, i: nat)
    requires DeviceRun(ks, es, i) && n < |es| && !Calls(es[n], i) && !Interrupts(es[n], i)
    ensures Touches(es[n]) != Some(Dev(i))
  {
    hide Run;
  }

  lemma QuietInRun(ks: seq<K>, es: seq<Event>, n: nat, i: nat)
    requires DeviceRun(ks, es, i) && n < |es| && !Calls(es[n], i) && !Interrupts(es[n], i) && !es[n].TermE?
    ensures Queue(ks[n + 1], Dev(i)) == Queue(ks[n], Dev(i))
    ensures Get(ks[n + 1].val, Dev(i)) == Get(ks[n].val, Dev(i))
  {
    hide Inv, Queue, Bounded, Next, Touches, Calls, Interrupts;
    OnlyThese(ks, es, n, i);
    RunStep(ks, es, n);
    StepElsewhere(ks[n], es[n], ks[n + 1], Dev(i));
  }

  // ---------------------------------------------------------------- the value

  /** In every run: semaphore value plus queue length counts the interrupts that found nobody waiting and
    * the signals terminations sent for processes that did not wait. */
  lemma {:induction false} ValueCountsSignals(ks: seq<K>, es: seq<Event>, n: nat, i: nat)
    requires DeviceRun(ks, es, i) && n <= |es|
    ensures ValueOk(ks, es, n, i)
  {
    hide Inv, Queue, Bounded, Next, Calls, OldCarriers;
    if n > 0 {
      var m := n - 1;
      ValueCountsSignals(ks, es, m, i);
      RunStep(ks, es, m);
      if Calls(es[m], i) {
        CallIsCall(es[m], i);
        CallInRun(ks, es, m, i);
      } else if Interrupts(es[m], i) {
        InterruptInRun(ks, es, m, i);
      } else if es[m].TermE? {
        TermInRun(ks, es, m, i);
      } else {
        QuietInRun(ks, es, m, i);
      }
    }
  }

  lemma CallIsCall(e: Event, i: nat)
    requires Calls(e, i)
    ensures e.DoIOE?
  {
  }

  lemma TermInRun(ks: seq<K>, es: seq<Event>, n: nat, i: nat)
    requires Run(ks, es) && n < |es| && es[n].TermE?
    ensures Shape(ks[n]) && es[n].cpu < NCPU
    ensures Queue(ks[n + 1], Dev(i)) == Without(Queue(ks[n], Dev(i)), Condemned(ks[n], es[n]))
    ensures Get(ks[n + 1].val, Dev(i)) + |Queue(ks[n + 1], Dev(i))|
      == Get(ks[n].val, Dev(i)) + |Queue(ks[n], Dev(i))| + |OldCarriers(ks[n], es[n], Dev(i))|
  {
    hide Inv, Queue, Condemned, OldCarriers, Terminates;
    RunStep(ks, es, n);
    TerminationHere(ks[n], es[n], ks[n + 1], Dev(i));
  }

  // ---------------------------------------------------------------- the order

  lemma PendingNext(ks: seq<K>, es: seq<Event>, m: nat, n: nat, i: nat)
    requires Run(ks, es) && n < |es| && Pending(ks, es, m, n, i) && Caller(ks, es, m) in Queue(ks[n + 1], Dev(i))
    ensures Pending(ks, es, m, n + 1, i)
  {
    hide Queue, Calls, PidOf, Caller, Inv, Next, Bounded;
    var p := Caller(ks, es, m);
    assert p in Queue(ks[n], Dev(i));
    WaiterPidKept(ks, es, n, i, p);
  }

  lemma StandsNext(ks: seq<K>, es: seq<Event>, m: nat, n: nat, i: nat)
    requires n < |es| < |ks|
    ensures m < n ==> (Stands(ks, es, m, n + 1, i) <==> Stands(ks, es, m, n, i) && !StruckBy(ks, es, m, n, i))
    ensures m == n ==> (Stands(ks, es, m, n + 1, i) <==> Calls(es[n], i))
    ensures m > n ==> !Stands(ks, es, m, n + 1, i)
  {
    hide Queue, Calls, Caller, Open;
    if m < n && Struck(ks, es, m, n + 1, i) && !StruckBy(ks, es, m, n, i) {
      var t :| 0 <= t < n + 1 && StruckBy(ks, es, m, t, i);
      assert t < n;
    }
  }

  lemma ClosedNext(ks: seq<K>, es: seq<Event>, n: nat, i: nat, s: seq<nat>)
    requires n < |es| < |ks| && Closed(ks, es, n, i, s)
    ensures Closed(ks, es, n + 1, i, s)
  {
    hide Queue, Caller;
    forall m | m in s ensures !Open(ks, es, m, n + 1, i) {
      var r :| m < r <= n && Caller(ks, es, m) !in Queue(ks[r], Dev(i));
      assert m < r <= n + 1;
    }
  }

  /** Without a termination or a call, the standing calls stay the same. */
  lemma StandingKept(ks: seq<K>, es: seq<Event>, n: nat, i: nat, a: seq<nat>)
    requires n < |es| < |ks| && ListsStanding(ks, es, n, i, a) && !es[n].TermE? && !Calls(es[n], i)
    ensures ListsStanding(ks, es, n + 1, i, a)
  {
    hide Calls, Open, Increasing, Queue, Struck;
    forall m: nat ensures m in a <==> Stands(ks, es, m, n + 1, i) {
      StandsNext(ks, es, m, n, i);
    }
  }

  lemma QuietFifo(ks: seq<K>, es: seq<Event>, n: nat, i: nat, s: seq<nat>, w: seq<nat>)
    requires DeviceRun(ks, es, i) && n < |es| && Lawful(ks, es, n, i, s, w)
    requires !Calls(es[n], i) && !Interrupts(es[n], i) && !es[n].TermE?
    ensures Lawful(ks, es, n + 1, i, s, w)
  {
    hide Queue, Calls, Interrupts, Stands, Caller, Pending, Closed, ListsStanding, Inv, Next, Bounded;
    QuietInRun(ks, es, n, i);
    ClosedNext(ks, es, n, i, s);
    StandingKept(ks, es, n, i, s + w);
    AlignedNext(ks, es, n, i, w, w);
  }

  /** Calls whose callers make up the next queue, and all wait now, are aligned then. */
  lemma AlignedNext(ks: seq<K>, es: seq<Event>, n: nat, i: nat, w: seq<nat>, w': seq<nat>)
    requires Run(ks, es) && n < |es| && Aligned(ks, es, n, i, w)
    requires forall m :: m in w' ==> m in w
    requires |w'| == |Queue(ks[n + 1], Dev(i))|
    requires forall j :: 0 <= j < |w'| ==> Caller(ks, es, w'[j]) == Queue(ks[n + 1], Dev(i))[j]
    ensures Aligned(ks, es, n + 1, i, w')
  {
    hide Queue, Caller, Pending, Inv, Next, Bounded;
    forall j | 0 <= j < |w'| ensures Pending(ks, es, w'[j], n + 1, i) {
      assert w'[j] in w';
      PendingNext(ks, es, w'[j], n, i);
    }
  }

  lemma CallFifo(ks: seq<K>, es: seq<Event>, n: nat, i: nat, s: seq<nat>, w: seq<nat>)
    requires Run(ks, es) && n < |es| && Lawful(ks, es, n, i, s, w) && Calls(es[n], i)
    ensures Lawful(ks, es, n + 1, i, s, w + [n])
  {
    hide Queue, Struck, Caller, PidOf, Inv, Next, Bounded;
    CallInRun(ks, es, n, i);
    CallIsCall(es[n], i);
    ClosedNext(ks, es, n, i, s);
    forall j | 0 <= j < |w| ensures Pending(ks, es, w[j], n + 1, i) {
      PendingNext(ks, es, w[j], n, i);
    }
    var a := s + w;
    assert s + (w + [n]) == a + [n];
    forall m: nat ensures m in a + [n] <==> Stands(ks, es, m, n + 1, i) {
      StandsNext(ks, es, m, n, i);
    }
    assert forall j :: 0 <= j < |a| ==> a[j] in a;
  }

  lemma InterruptFifo(ks: seq<K>, es: seq<Event>, n: nat, i: nat, s: seq<nat>, w: seq<nat>)
    requires Run(ks, es) && n < |es| && Lawful(ks, es, n, i, s, w) && Interrupts(es[n], i)
    ensures w == [] ==> Lawful(ks, es, n + 1, i, s, w)
    ensures w != [] ==> Lawful(ks, es, n + 1, i, s + [w[0]], w[1..])
  {
    hide Queue, Inv, Caller, Stands, ListsStanding, Next, Bounded, Open, Pending, Closed;
    InterruptInRun(ks, es, n, i);
    InterruptIsNone(es[n], i);
    ClosedNext(ks, es, n, i, s);
    StandingKept(ks, es, n, i, s + w);
    if w == [] {
      AlignedNext(ks, es, n, i, w, w);
    } else {
      assert s + [w[0]] + w[1..] == s + w;
      AlignedNext(ks, es, n, i, w, w[1..]);
      HeadClosed(ks, es, n, i, s, w);
    }
  }

  /** The caller at the head has left the queue. */
  lemma HeadClosed(ks: seq<K>, es: seq<Event>, n: nat, i: nat, s: seq<nat>, w: seq<nat>)
    requires Run(ks, es) && n < |es| && Aligned(ks, es, n, i, w) && w != [] && Closed(ks, es, n + 1, i, s)
    requires Queue(ks[n + 1], Dev(i)) == Queue(ks[n], Dev(i))[1..]
    ensures Closed(ks, es, n + 1, i, s + [w[0]])
  {
    hide Queue, Inv, Caller, Next, Bounded;
    RunStep(ks, es, n);
    QueueKnown(ks[n], Dev(i));
    var q, m := Queue(ks[n], Dev(i)), w[0];
    assert Pending(ks, es, m, n, i) && Caller(ks, es, m) == q[0];
    assert q[0] !in q[1..];
    var r := n + 1;
    assert m < r <= n + 1 && Caller(ks, es, m) !in Queue(ks[r], Dev(i));
  }

  lemma InterruptIsNone(e: Event, i: nat)
    requires Interrupts(e, i)
    ensures !e.TermE? && !Calls(e, i)
  {
  }

  lemma {:induction false} RemainingAligned(ks: seq<K>, es: seq<Event>, w: seq<nat>, q: seq<nat>, S: set<nat>,
                                            q': seq<nat>)
    requires |w| == |q| && forall j :: 0 <= j < |w| ==> Caller(ks, es, w[j]) == q[j]
    requires forall x :: x in q ==> (x in q' <==> x !in S)
    ensures |Remaining(ks, es, w, q')| == |Without(q, S)|
    ensures forall j :: 0 <= j < |Without(q, S)| ==> Caller(ks, es, Remaining(ks, es, w, q')[j]) == Without(q, S)[j]
  {
    hide Caller;
    if w != [] {
      assert q == [q[0]] + q[1..];
      RemainingAligned(ks, es, w[1..], q[1..], S, q');
    }
  }

  lemma {:induction false} RemainingIncreasing(ks: seq<K>, es: seq<Event>, s: seq<nat>, w: seq<nat>, q: seq<nat>)
    requires Increasing(s + w)
    ensures Increasing(s + Remaining(ks, es, w, q))
    decreases w
  {
    hide Caller, Increasing;
    if w != [] {
      var rest := Remaining(ks, es, w[1..], q);
      if Caller(ks, es, w[0]) in q {
        assert s + w == (s + [w[0]]) + w[1..];
        RemainingIncreasing(ks, es, s + [w[0]], w[1..], q);
        assert s + ([w[0]] + rest) == (s + [w[0]]) + rest;
      } else {
        SkipOne(s, w);
        RemainingIncreasing(ks, es, s, w[1..], q);
        assert Remaining(ks, es, w, q) == rest;
      }
    }
  }

  lemma SkipOne(s: seq<nat>, w: seq<nat>)
    requires w != [] && Increasing(s + w)
    ensures Increasing(s + w[1..])
  {
    var a, b := s + w, s + w[1..];
    forall x, y | 0 <= x < y < |b| ensures b[x] < b[y] {
      var x', y' := if x < |s| then x else x + 1, if y < |s| then y else y + 1;
      assert b[x] == a[x'] && b[y] == a[y'] && x' < y';
    }
  }

  lemma TermFifo(ks: seq<K>, es: seq<Event>, n: nat, i: nat, s: seq<nat>, w: seq<nat>)
    requires Run(ks, es) && n < |es| && Lawful(ks, es, n, i, s, w) && es[n].TermE?
    ensures Lawful(ks, es, n + 1, i, s, Remaining(ks, es, w, Queue(ks[n + 1], Dev(i))))
  {
    hide Queue, Caller, Stands, Pending, Remaining, Condemned, Increasing, Without, Inv, Next, Bounded;
    var q, q' := Queue(ks[n], Dev(i)), Queue(ks[n + 1], Dev(i));
    TermInRun(ks, es, n, i);
    var S := Condemned(ks[n], es[n]);
    KernelTerm.WithoutMembers(q, S);
    RemainingAligned(ks, es, w, q, S, q');
    RemainingMembers(ks, es, w, q');
    AlignedNext(ks, es, n, i, w, Remaining(ks, es, w, q'));
    ClosedNext(ks, es, n, i, s);
    RemainingIncreasing(ks, es, s, w, q');
    forall m: nat ensures m in s + Remaining(ks, es, w, q') <==> Stands(ks, es, m, n + 1, i) {
      TermStanding(ks, es, m, n, i, s, w);
    }
  }

  lemma TermStanding(ks: seq<K>, es: seq<Event>, m: nat, n: nat, i: nat, s: seq<nat>, w: seq<nat>)
    requires n < |es| < |ks| && Lawful(ks, es, n, i, s, w) && es[n].TermE?
    ensures Stands(ks, es, m, n + 1, i) <==> m in s || (m in w && Caller(ks, es, m) in Queue(ks[n + 1], Dev(i)))
  {
    hide Queue, Caller, Struck, Increasing;
    StandsNext(ks, es, m, n, i);
    assert m in s + w <==> m in s || m in w;
  }

  lemma LawfulAtStart(ks: seq<K>, es: seq<Event>, i: nat)
    requires DeviceRun(ks, es, i)
    ensures FifoLaw(ks, es, 0, i)
  {
    hide Inv, Next;
  }

  /** On every device of every run: the calls answered so far followed by the calls waiting are, in the
    * order in which they were made, exactly the calls whose callers were not terminated while they
    * waited; and the queue holds the callers of the waiting ones, in that order. */
  lemma {:induction false} DevicesAreFifo(ks: seq<K>, es: seq<Event>, n: nat, i: nat)
    requires DeviceRun(ks, es, i) && n <= |es|
    ensures FifoLaw(ks, es, n, i)
  {
    hide Calls, Interrupts, Aligned, Closed, ListsStanding, Remaining, Queue, Inv, Next, Bounded;
    if n == 0 {
      LawfulAtStart(ks, es, i);
    } else {
      var m := n - 1;
      DevicesAreFifo(ks, es, m, i);
      var s, w := ServedCalls(ks, es, m, i), WaitingCalls(ks, es, m, i);
      if Calls(es[m], i) {
        CallIsNone(es[m], i);
        CallFifo(ks, es, m, i, s, w);
      } else if Interrupts(es[m], i) {
        InterruptFifo(ks, es, m, i, s, w);
      } else if es[m].TermE? {
        TermFifo(ks, es, m, i, s, w);
      } else {
        QuietFifo(ks, es, m, i, s, w);
      }
    }
  }

  lemma CallIsNone(e: Event, i: nat)
    requires Calls(e, i)
    ensures !Interrupts(e, i)
  {
  }

  // ---------------------------------------------------------------- the k-th answer

  /** The status an interrupt delivers. */
  function StatusOf(e: Event, i: nat): nat
    requires Interrupts(e, i)
  {
    InterruptKey(e.line, e.dev, e.reg0, e.reg2).value.1
  }

  lemma Delivered(ks: seq<K>, es: seq<Event>, t: nat, i: nat)
    requires Run(ks, es) && t < |es| && Interrupts(es[t], i) && Queue(ks[t], Dev(i)) != []
    ensures var p := Queue(ks[t], Dev(i))[0];
      p in ks[t + 1].ready && p < |ks[t + 1].pcb| && ks[t + 1].pcb[p].ps.a0 == StatusOf(es[t], i)
  {
    hide Inv, Queue, Bounded, Interrupt, InterruptKey;
    RunStep(ks, es, t);
    var e := es[t];
    InterruptHere(ks[t], e.line, e.dev, e.reg0, e.reg2, i);
  }

  /** The step that answers the j-th call. */
  lemma {:induction false} ServedAt(ks: seq<K>, es: seq<Event>, n: nat, i: nat, j: nat) returns (t: nat)
    requires n <= |es| < |ks| && j < |ServedCalls(ks, es, n, i)|
    ensures t < n && |ServedCalls(ks, es, t, i)| == j && Interrupts(es[t], i)
    ensures WaitingCalls(ks, es, t, i) != [] && ServedCalls(ks, es, n, i)[j] == WaitingCalls(ks, es, t, i)[0]
  {
    hide Queue, Interrupts, NextWaiting;
    if j < |ServedCalls(ks, es, n - 1, i)| {
      t := ServedAt(ks, es, n - 1, i, j);
    } else {
      t := n - 1;
    }
  }

  lemma BelowInOrder(a: seq<nat>, j: nat, c: nat)
    requires Increasing(a) && j < |a|
    ensures c in a[..j] <==> c in a && c < a[j]
  {
    if c in a && c < a[j] {
      var x :| 0 <= x < |a| && a[x] == c;
      assert x < j;
      assert a[..j][x] == c;
    }
  }

  /** The j-th interrupt that finds a waiter (step t) answers the j-th standing call (m): exactly j calls
    * made before m stand, its caller has waited since and is the same process, and it becomes ready with
    * the status of that interrupt as its result. */
  lemma KthInterruptServesKthCaller(ks: seq<K>, es: seq<Event>, n: nat, i: nat, j: nat) returns (m: nat, t: nat)
    requires DeviceRun(ks, es, i) && n <= |es| < |ks| && j < |ServedCalls(ks, es, n, i)|
    ensures m == ServedCalls(ks, es, n, i)[j] && Stands(ks, es, m, n, i)
    ensures forall c: nat :: c in ServedCalls(ks, es, n, i)[..j] <==> c < m && Stands(ks, es, c, n, i)
    ensures m < t < n && Interrupts(es[t], i) && |ServedCalls(ks, es, t, i)| == j
    ensures Queue(ks[t], Dev(i)) != [] && Queue(ks[t], Dev(i))[0] == Caller(ks, es, m) && Pending(ks, es, m, t, i)
    ensures var p := Caller(ks, es, m);
      p in ks[t + 1].ready && p < |ks[t + 1].pcb| && ks[t + 1].pcb[p].ps.a0 == StatusOf(es[t], i)
  {
    hide Queue, Interrupts, Next, Inv, Bounded, Caller, Stands, Pending, StatusOf, ServedCalls, WaitingCalls,
      Increasing;
    DevicesAreFifo(ks, es, n, i);
    t := ServedAt(ks, es, n, i, j);
    DevicesAreFifo(ks, es, t, i);
    var s, w := ServedCalls(ks, es, n, i), WaitingCalls(ks, es, n, i);
    m := s[j];
    var a := s + w;
    assert a[j] == m && m in a;
    forall c: nat ensures c in s[..j] <==> c < m && Stands(ks, es, c, n, i) {
      BelowInOrder(a, j, c);
      assert a[..j] == s[..j];
    }
    PendingBefore(ks, es, m, t, i);
    Delivered(ks, es, t, i);
  }

  lemma PendingBefore(ks: seq<K>, es: seq<Event>, m: nat, n: nat, i: nat)
    requires n <= |es| < |ks|
    ensures Pending(ks, es, m, n, i) ==> m < n
  {
  }
}
