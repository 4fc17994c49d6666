/** The nucleus as a state machine: what each section under global_lock does to the PCBs, the
  * queues, the semaphores and the process tree (phase2/exceptions.c, phase2/interrupts.c,
  * phase2/scheduler.c, phase2/initial.c). */
module KernelState {
  import opened KernelTypes

  datatype K = K(
    free: seq<nat>,                 // pcbFree_h, head first
    ready: seq<nat>,                // ready_queue
    running: seq<Option<nat>>,      // current_process[NCPU]
    blocked: map<Key, seq<nat>>,    // the ASL: active semaphores and their queues
    val: map<Key, int>,             // the semaphore words
    children: seq<seq<nat>>,        // p_child / p_sib
    pcb: seq<Pcb>,                  // the other PCB fields
    nextPid: int,
    count: int)                     // process_count

  // ---------------------------------------------------------------- queues of the ASL

  function Enq(blocked: map<Key, seq<nat>>, key: Key, p: nat): map<Key, seq<nat>> {
    blocked[key := (if key in blocked then blocked[key] else []) + [p]]
  }

  function Deq(blocked: map<Key, seq<nat>>, key: Key): map<Key, seq<nat>>
    requires key in blocked && blocked[key] != []
  {
    if |blocked[key]| == 1 then blocked - {key} else blocked[key := blocked[key][1..]]
  }

  /** insertBlocked finds no descriptor for the key and none on the free list: it returns TRUE. */
  predicate InsertFails(blocked: map<Key, seq<nat>>, key: Key) {
    key !in blocked && |blocked| >= MAXPROC
  }

  function InsertBlocked(k: K, key: Key, p: nat): K
    requires p < |k.pcb|
  {
    if InsertFails(k.blocked, key) then k
    else k.(blocked := Enq(k.blocked, key, p), pcb := k.pcb[p := k.pcb[p].(semAdd := Some(key))])
  }

  // ---------------------------------------------------------------- device indices

  function FindDeviceIndex(devRegAddress: nat): int {
    var offset := (devRegAddress - START_DEVREG) % WORD;
    if offset >= 32 * 0x10 then 32 + (offset - 32 * 0x10) / 0x8 else offset / 0x10
  }

  /** The addresses whose index is within device_semaphores: the device registers, five interrupt lines
    * of eight four-word registers, and eight bytes above them. */
  predicate HasSemaphore(addr: nat) {
    START_DEVREG <= addr < START_DEVREG + 5 * 0x80 + 8
  }

  function DevAddrBase(line: nat, dev: nat): nat
    requires 3 <= line
  {
    START_DEVREG + (line - 3) * 0x80 + dev * 0x10
  }

  /** Which semaphore an interrupt signals, and with which status.  Register words 0 and 2 are the
    * status of a plain device, or the receiver and transmitter status of a terminal. */
  function InterruptKey(line: nat, dev: nat, reg0: nat, reg2: nat): Option<(nat, nat)>
    requires 3 <= line <= 7 && dev < 8
  {
    var base := DevAddrBase(line, dev);
    if line == 7 then
      if 1 < reg2 % 0x100 <= 5 then Some((IndexOf(base + 0xC), reg2))
      else if 1 < reg0 % 0x100 <= 5 then Some((IndexOf(base + 0x4), reg0))
      else None
    else Some((IndexOf(base), reg0))
  }

  function IndexOf(addr: nat): nat
    requires HasSemaphore(addr)
  {
    FindDeviceIndex(addr)
  }

  // ---------------------------------------------------------------- steps

  predicate Shape(k: K) {
    |k.running| == NCPU && |k.pcb| == MAXPROC && |k.children| == MAXPROC
  }

  predicate Busy(k: K, cpu: nat) {
    && cpu < |k.running| && k.running[cpu].Some?
    && k.running[cpu].value < |k.pcb| && k.running[cpu].value < |k.children|
  }

  predicate InRange(q: seq<nat>) {
    forall p :: p in q ==> p < MAXPROC
  }

  /** Every reference held in the state is an index of the PCB table. */
  predicate Bounded(k: K) {
    && Shape(k)
    && InRange(k.free) && InRange(k.ready)
    && (forall c :: 0 <= c < NCPU && k.running[c].Some? ==> k.running[c].value < MAXPROC)
    && (forall key :: key in k.blocked ==> k.blocked[key] != [] && InRange(k.blocked[key]))
  }

  /** CREATEPROCESS (allocPcb, insertChild, insertProcQ). */
  function Create(k: K, cpu: nat, st: PState): K
    requires Bounded(k) && cpu < NCPU
  {
    if k.free == [] then k
    else
      var p, up := k.free[0], k.running[cpu];
      assert p in k.free;
      var pcb := Pcb(up, None, k.nextPid, st);
      var children := k.children[p := []];
      k.(free := k.free[1..],
         ready := k.ready + [p],
         pcb := k.pcb[p := pcb],
         children := if up.None? then children else children[up.value := [p] + children[up.value]],
         nextPid := k.nextPid + 1,
         count := k.count + 1)
  }

  /** insertBlocked(key, current), save the state, free the CPU. */
  function Block(k: K, cpu: nat, key: Key, st: PState): K
    requires Busy(k, cpu)
  {
    var p := k.running[cpu].value;
    var k1 := InsertBlocked(k, key, p);
    k1.(pcb := k1.pcb[p := k1.pcb[p].(ps := st)], running := k1.running[cpu := None])
  }

  /** removeBlocked(key), and the PCB found, if any, goes to the ready queue. */
  function Wake(k: K, key: Key): K
    requires key in k.blocked ==> k.blocked[key] != []
  {
    if key in k.blocked then
      k.(blocked := Deq(k.blocked, key), ready := k.ready + [k.blocked[key][0]])
    else k
  }

  function Add(k: K, key: Key, n: int): K {
    k.(val := k.val[key := Get(k.val, key) + n])
  }

  /** PASSEREN */
  function P(k: K, cpu: nat, key: Key, st: PState): K
    requires Bounded(k) && Busy(k, cpu)
  {
    var k1 := Add(k, key, -1);
    if Get(k1.val, key) < 0 then Block(k1, cpu, key, st)
    else if Get(k1.val, key) >= 1 then Wake(k1, key)
    else k1
  }

  /** VERHOGEN */
  function V(k: K, cpu: nat, key: Key, st: PState): K
    requires Bounded(k) && Busy(k, cpu)
  {
    var k1 := Add(k, key, 1);
    if Get(k1.val, key) > 1 then Block(k1, cpu, key, st)
    else if Get(k1.val, key) <= 0 then Wake(k1, key)
    else k1
  }

  /** DOIO, when the command address is not NULL. */
  function DoIO(k: K, cpu: nat, addr: nat, st: PState): K
    requires Bounded(k) && Busy(k, cpu) && HasSemaphore(addr)
  {
    var key := Dev(IndexOf(addr));
    Block(Add(k, key, -1), cpu, key, st)
  }

  /** CLOCKWAIT; when insertBlocked fails the kernel panics with nothing changed. */
  function ClockWait(k: K, cpu: nat, st: PState): K
    requires Bounded(k) && Busy(k, cpu)
  {
    if InsertFails(k.blocked, Dev(PSEUDOCLOCK)) then k else Block(k, cpu, Dev(PSEUDOCLOCK), st)
  }

  /** pltHandler */
  function Plt(k: K, cpu: nat, st: PState): K
    requires Busy(k, cpu)
  {
    var p := k.running[cpu].value;
    k.(pcb := k.pcb[p := k.pcb[p].(ps := st)], ready := k.ready + [p], running := k.running[cpu := None])
  }

  /** unblockClockPCBs */
  function Tick(k: K): K {
    var key := Dev(PSEUDOCLOCK);
    if key in k.blocked then k.(blocked := k.blocked - {key}, ready := k.ready + k.blocked[key]) else k
  }

  /** intHandler */
  function Interrupt(k: K, line: nat, dev: nat, reg0: nat, reg2: nat): K
    requires Bounded(k) && 3 <= line <= 7 && dev < 8
  {
    match InterruptKey(line, dev, reg0, reg2)
    case None => k
    case Some((i, status)) => Signal(k, Dev(i), status)
  }

  function Signal(k: K, key: Key, status: nat): K
    requires Bounded(k)
  {
    var k1 := Add(k, key, 1);
    if key !in k.blocked then k1
    else
      var p := k.blocked[key][0];
      assert p in k.blocked[key];
      var k2 := Wake(k1, key);
      k2.(pcb := k2.pcb[p := k2.pcb[p].(ps := k2.pcb[p].ps.(a0 := status))])
  }

  /** Scheduler: dispatch the head of the ready queue, or halt, or wait. */
  function Dispatch(k: K, cpu: nat): K
    requires cpu < |k.running|
  {
    if k.ready == [] then k
    else k.(ready := k.ready[1..], running := k.running[cpu := Some(k.ready[0])])
  }

  // ---------------------------------------------------------------- termination

  /** d is a or descends from a.  Parents have smaller pids, which bounds the climb. */
  ghost predicate Under(pcb: seq<Pcb>, a: nat, d: nat)
    decreases if d < |pcb| && pcb[d].pid >= 0 then pcb[d].pid else 0
  {
    || d == a
    || (&& d < |pcb| && pcb[d].parent.Some?
        && var q := pcb[d].parent.value;
        q < |pcb| && 0 <= pcb[q].pid < pcb[d].pid && Under(pcb, a, q))
  }

  ghost function Subtree(k: K, a: nat): set<nat> {
    set d: nat | d < MAXPROC && Under(k.pcb, a, d)
  }

  /** The elements of q outside S, in their order. */
  ghost function Without(q: seq<nat>, S: set<nat>): seq<nat> {
    if q == [] then [] else (if q[0] in S then [] else [q[0]]) + Without(q[1..], S)
  }

  ghost function WithoutAll(blocked: map<Key, seq<nat>>, S: set<nat>): map<Key, seq<nat>> {
    map key | key in blocked && Without(blocked[key], S) != [] :: Without(blocked[key], S)
  }

  /** The members of S that terminateSubtree frees: those on the ready queue and those with a
    * semaphore address.  The others are running and it leaves them alone. */
  ghost function Freed(k: K, S: set<nat>): set<nat>
    requires |k.pcb| == MAXPROC
  {
    set m | m in S && m < MAXPROC && (m in k.ready || k.pcb[m].semAdd.Some?)
  }

  /** The members of S whose semaphore address is the given one. */
  ghost function Charged(pcb: seq<Pcb>, S: set<nat>, key: Key): set<nat> {
    set m | m in S && m < |pcb| && pcb[m].semAdd == Some(key)
  }

  /** What terminating the processes of S on one CPU, and detaching those of D from their parents,
    * does to the kernel: a description of the result, whatever the order of the work. */
  ghost predicate Removed(k: K, cpu: nat, S: set<nat>, D: set<nat>, k': K)
    requires Shape(k)
  {
    && Shape(k')
    && (exists fs :: FreedOnto(k, S, fs, k'.free))
    && k'.ready == Without(k.ready, S)
    && k'.blocked == WithoutAll(k.blocked, S)
    && k'.count == k.count - |Freed(k, S)|
    && k'.nextPid == k.nextPid
    && (forall key :: Get(k'.val, key) == Get(k.val, key) + |Charged(k.pcb, S, key)|)
    && (forall c :: 0 <= c < NCPU ==>
          k'.running[c] ==
            if c == cpu && k.running[c].Some? && k.running[c].value in Freed(k, S) then None else k.running[c])
    && (forall m :: 0 <= m < MAXPROC ==>
          k'.pcb[m] == if m in D then k.pcb[m].(parent := None) else k.pcb[m])
    && (forall m :: 0 <= m < MAXPROC ==> k'.children[m] == Without(k.children[m], D))
  }

  /** The free list grew at its head by exactly the freed members, each once. */
  ghost predicate FreedOnto(k: K, S: set<nat>, fs: seq<nat>, free: seq<nat>)
    requires |k.pcb| == MAXPROC
  {
    && free == fs + k.free
    && (forall m :: m in fs <==> m in Freed(k, S))
    && (forall i, j :: 0 <= i < |fs| && 0 <= j < |fs| && fs[i] == fs[j] ==> i == j)
  }

  /** Termination of the tree under p: p itself keeps its place in its parent's list when it is
    * one of the members left alone. */
  ghost function Detached(k: K, p: nat): set<nat>
    requires |k.pcb| == MAXPROC
  {
    var S := Subtree(k, p);
    if p in Freed(k, S) then S else S - {p}
  }

  /** The process TERMPROCESS finds for a pid: the caller for 0, else a ready or blocked process. */
  ghost predicate IsTarget(k: K, cpu: nat, pid: int, t: Option<nat>)
    requires Shape(k) && cpu < NCPU
  {
    if pid == 0 then t == k.running[cpu]
    else match t
      case Some(p) => p < MAXPROC && k.pcb[p].pid == pid && Waiting(k, p)
      case None => forall p :: 0 <= p < MAXPROC && Waiting(k, p) ==> k.pcb[p].pid != pid
  }

  ghost predicate Waiting(k: K, p: nat) {
    p in k.ready || exists key :: key in k.blocked && p in k.blocked[key]
  }

  /** When terminating S keeps the kernel's lists sound: a member holding a semaphore address is not
    * on the ready queue and not running on another CPU. */
  ghost predicate Guarded(k: K, cpu: nat, S: set<nat>)
    requires Shape(k)
  {
    forall m :: m in S && m < MAXPROC && k.pcb[m].semAdd.Some? ==>
      m !in k.ready && (forall c :: 0 <= c < NCPU && c != cpu ==> k.running[c] != Some(m))
  }

  // ---------------------------------------------------------------- events and runs

  datatype Event =
    | CreateE(cpu: nat, st: PState)
    | TermE(cpu: nat, pid: int)
    | PE(cpu: nat, key: Key, st: PState)
    | VE(cpu: nat, key: Key, st: PState)
    | DoIOE(cpu: nat, addr: nat, st: PState)
    | ClockWaitE(cpu: nat, st: PState)
    | PltE(cpu: nat, st: PState)
    | TickE(cpu: nat)
    | InterruptE(cpu: nat, line: nat, dev: nat, reg0: nat, reg2: nat)
    | SchedE(cpu: nat)

  /** The situations in which the hardware and the callers let a section run: system calls and
    * processor timer interrupts come from a running process, Scheduler is called on an idle CPU. */
  ghost predicate Enabled(k: K, e: Event)
    requires Shape(k)
  {
    && e.cpu < NCPU
    && match e
       case SchedE(cpu) => k.running[cpu].None?
       case TickE(_) => true
       case InterruptE(_, line, dev, _, _) => 3 <= line <= 7 && dev < 8
       case DoIOE(cpu, addr, _) => k.running[cpu].Some? && HasSemaphore(addr)
       case _ => k.running[e.cpu].Some?
  }

  ghost predicate Next(k: K, e: Event, k': K)
    requires Bounded(k)
  {
    && Enabled(k, e)
    && match e
       case CreateE(cpu, st) => k' == Create(k, cpu, st)
       case PE(cpu, key, st) => k' == P(k, cpu, key, st)
       case VE(cpu, key, st) => k' == V(k, cpu, key, st)
       case DoIOE(cpu, addr, st) => k' == DoIO(k, cpu, addr, st)
       case ClockWaitE(cpu, st) => k' == ClockWait(k, cpu, st)
       case PltE(cpu, st) => k' == Plt(k, cpu, st)
       case TickE(_) => k' == Tick(k)
       case InterruptE(_, line, dev, reg0, reg2) => k' == Interrupt(k, line, dev, reg0, reg2)
       case SchedE(cpu) => k' == Dispatch(k, cpu)
       case TermE(cpu, pid) => exists t :: IsTarget(k, cpu, pid, t) && Terminates(k, cpu, t, k')
  }

  ghost predicate Terminates(k: K, cpu: nat, t: Option<nat>, k': K)
    requires Shape(k)
  {
    if t.None? then k' == k
    else
      var S := Subtree(k, t.value);
      Guarded(k, cpu, S) && Removed(k, cpu, S, Detached(k, t.value), k')
  }

  /** The state main() builds: all PCBs free but the last, which holds the first process. */
  ghost function Boot(st: PState, pcb: seq<Pcb>, val: map<Key, int>): K
    requires |pcb| == MAXPROC
  {
    K(Countdown(MAXPROC - 1), [MAXPROC - 1], seq(NCPU, i => None), map[], val,
      seq(MAXPROC, i => []), pcb[MAXPROC - 1 := Pcb(None, None, 0, st)], 1, 1)
  }

  /** n - 1, ..., 1, 0 */
  function Countdown(n: nat): (s: seq<nat>)
    ensures |s| == n && forall i :: 0 <= i < n ==> s[i] == n - 1 - i
  {
    if n == 0 then [] else [n - 1] + Countdown(n - 1)
  }
}
