/** What each section under global_lock does, said of queues, CPUs and values alone. */
module Sections {
  import opened KernelTypes
  import opened KernelState
  import opened KernelInv
  import opened Semaphores
  import Devices
  import Exactness

  // ---------------------------------------------------------------- parts

  /** The free list, the process tree and the counters stay. */
  ghost predicate SameTree(k: K, k': K) {
    k'.free == k.free && k'.children == k.children && k'.nextPid == k.nextPid && k'.count == k.count
  }

  ghost predicate SameQueuesBut(k: K, key: Key, k': K) {
    forall other :: other != key ==> Queue(k', other) == Queue(k, other)
  }

  ghost predicate SameQueues(k: K, k': K) {
    forall key :: Queue(k', key) == Queue(k, key)
  }

  ghost predicate SameValues(k: K, k': K) {
    forall key :: Get(k'.val, key) == Get(k.val, key)
  }

  /** The value of one semaphore changes by n. */
  ghost predicate ValueMoves(k: K, key: Key, n: int, k': K) {
    && Get(k'.val, key) == Get(k.val, key) + n
    && forall other :: other != key ==> Get(k'.val, other) == Get(k.val, other)
  }

  /** The process leaves its CPU for the end of a semaphore queue; s is saved as its state. */
  ghost predicate Blocked(k: K, cpu: nat, key: Key, s: PState, k': K) {
    && cpu < |k.running| && k.running[cpu].Some? && k.running[cpu].value < |k.pcb|
    && var p := k.running[cpu].value;
    && k'.running == k.running[cpu := None]
    && Queue(k', key) == Queue(k, key) + [p] && SameQueuesBut(k, key, k')
    && k'.pcb == k.pcb[p := k.pcb[p].(semAdd := Some(key), ps := s)]
    && k'.ready == k.ready && SameTree(k, k')
  }

  /** The first waiter, if there is one, goes to the end of the ready queue. */
  ghost predicate Woke(k: K, key: Key, k': K) {
    var q := Queue(k, key);
    && k'.ready == k.ready + (if q == [] then [] else [q[0]])
    && Queue(k', key) == (if q == [] then [] else q[1..]) && SameQueuesBut(k, key, k')
    && k'.running == k.running && k'.pcb == k.pcb && SameTree(k, k')
  }

  /** Nobody moves. */
  ghost predicate Stayed(k: K, k': K) {
    k'.ready == k.ready && k'.running == k.running && k'.pcb == k.pcb && SameQueues(k, k') && SameTree(k, k')
  }

  // ---------------------------------------------------------------- sections

  /** The new process takes the first free PCB, starts in the state given, and is the last one ready and
    * the first child of the process on the CPU.  Its pid is new. */
  ghost predicate CreateSpec(k: K, cpu: nat, st: PState, pid: int, k': K) {
    && cpu < |k.running|
    && k.free != [] && var q := k.free[0];
    && q < |k.pcb| == |k.children|
    && k'.free == k.free[1..] && q !in k'.free && q !in k.ready
    && k'.ready == k.ready + [q]
    && k'.pcb == k.pcb[q := Pcb(k.running[cpu], None, pid, st)]
    && (forall p :: 0 <= p < |k.pcb| && p !in k.free ==> k.pcb[p].pid < pid)
    && |k'.children| == |k.children| && k'.children[q] == []
    && (forall p :: 0 <= p < |k.children| && p != q ==>
          k'.children[p] == if k.running[cpu] == Some(p) then [q] + k.children[p] else k.children[p])
    && k'.running == k.running && SameQueues(k, k') && SameValues(k, k') && k'.count == k.count + 1
  }

  ghost predicate PSpec(k: K, cpu: nat, key: Key, s: PState, k': K) {
    var v := Get(k.val, key);
    && ValueMoves(k, key, -1, k')
    && (v <= 0 ==> Blocked(k, cpu, key, s, k'))
    && (v == 1 ==> Stayed(k, k'))
    && (v >= 2 ==> Woke(k, key, k'))
  }

  ghost predicate VSpec(k: K, cpu: nat, key: Key, s: PState, k': K) {
    var v := Get(k.val, key);
    && ValueMoves(k, key, 1, k')
    && (v >= 1 ==> Blocked(k, cpu, key, s, k'))
    && (v == 0 ==> Stayed(k, k'))
    && (v <= -1 ==> Woke(k, key, k'))
  }

  ghost predicate DoIOSpec(k: K, cpu: nat, addr: nat, s: PState, k': K)
    requires HasSemaphore(addr)
  {
    ValueMoves(k, Dev(IndexOf(addr)), -1, k') && Blocked(k, cpu, Dev(IndexOf(addr)), s, k')
  }

  ghost predicate ClockWaitSpec(k: K, cpu: nat, s: PState, k': K) {
    SameValues(k, k') && Blocked(k, cpu, Dev(PSEUDOCLOCK), s, k')
  }

  /** The process leaves its CPU for the end of the ready queue; s is saved as its state. */
  ghost predicate PltSpec(k: K, cpu: nat, s: PState, k': K) {
    && cpu < |k.running| && k.running[cpu].Some? && k.running[cpu].value < |k.pcb|
    && var p := k.running[cpu].value;
    && k'.running == k.running[cpu := None] && k'.ready == k.ready + [p]
    && k'.pcb == k.pcb[p := k.pcb[p].(ps := s)]
    && SameQueues(k, k') && SameValues(k, k') && SameTree(k, k')
  }

  /** All waiters of the pseudo-clock become ready, in their order. */
  ghost predicate TickSpec(k: K, k': K) {
    && k'.ready == k.ready + Queue(k, Dev(PSEUDOCLOCK))
    && Queue(k', Dev(PSEUDOCLOCK)) == [] && SameQueuesBut(k, Dev(PSEUDOCLOCK), k')
    && k'.running == k.running && k'.pcb == k.pcb && SameValues(k, k') && SameTree(k, k')
  }

  /** The first ready process gets the CPU. */
  ghost predicate SchedSpec(k: K, cpu: nat, k': K) {
    && cpu < |k.running|
    && k'.ready == (if k.ready == [] then [] else k.ready[1..])
    && k'.running == (if k.ready == [] then k.running else k.running[cpu := Some(k.ready[0])])
    && k'.pcb == k.pcb && SameQueues(k, k') && SameValues(k, k') && SameTree(k, k')
  }

  /** One process, ready in the state s, without parent and children; all other PCBs are free. */
  ghost predicate BootSpec(k: K, s: PState) {
    && Shape(k) && (exists p: nat :: OnlyProcess(k, p, s))
    && (forall c :: 0 <= c < NCPU ==> k.running[c] == None) && k.blocked == map[] && k.count == 1
    && (forall p :: 0 <= p < MAXPROC ==> k.children[p] == [])
  }

  ghost predicate OnlyProcess(k: K, p: nat, s: PState)
    requires Shape(k)
  {
    && p < MAXPROC && k.ready == [p] && k.pcb[p] == Pcb(None, None, 0, s)
    && (forall q: nat :: q < MAXPROC ==> (q in k.free <==> q != p)) && |k.free| == MAXPROC - 1
  }

  ghost predicate StepSpec(k: K, e: Event, k': K)
    requires Shape(k) && e.cpu < NCPU
  {
    match e
    case CreateE(cpu, st) => if k.free == [] then k' == k else CreateSpec(k, cpu, st, k.nextPid, k')
    case PE(cpu, key, st) => PSpec(k, cpu, key, st, k')
    case VE(cpu, key, st) => VSpec(k, cpu, key, st, k')
    case DoIOE(cpu, addr, st) => HasSemaphore(addr) && DoIOSpec(k, cpu, addr, st, k')
    case ClockWaitE(cpu, st) => ClockWaitSpec(k, cpu, st, k')
    case PltE(cpu, st) => PltSpec(k, cpu, st, k')
    case TickE(_) => TickSpec(k, k')
    case InterruptE(_, line, dev, reg0, reg2) =>
      3 <= line <= 7 && dev < 8 && Devices.InterruptSpec(k, line, dev, reg0, reg2, k')
    case SchedE(cpu) => SchedSpec(k, cpu, k')
    case TermE(cpu, pid) => Exactness.TermSpec(k, cpu, pid, k')
  }

  // ---------------------------------------------------------------- proofs

  lemma BlockIs(k: K, cpu: nat, key: Key, s: PState)
    requires Inv(k) && Bounded(k) && cpu < NCPU && k.running[cpu].Some?
    ensures Blocked(k, cpu, key, s, Block(k, cpu, key, s)) && Block(k, cpu, key, s).val == k.val
  {
    InsertBlockedNeverFails(k, cpu, key);
    hide Inv;
  }

  lemma WakeIs(k: K, key: Key)
    requires Inv(k) && Bounded(k)
    ensures Woke(k, key, Wake(k, key)) && Wake(k, key).val == k.val
  {
    hide Inv;
  }

  /** Adding to a value first makes no difference. */
  lemma AfterAdd(k: K, cpu: nat, key: Key, n: int, s: PState, k': K)
    ensures Blocked(Add(k, key, n), cpu, key, s, k') <==> Blocked(k, cpu, key, s, k')
    ensures Woke(Add(k, key, n), key, k') <==> Woke(k, key, k')
    ensures k'.val == Add(k, key, n).val ==> ValueMoves(k, key, n, k')
    ensures Stayed(k, Add(k, key, n))
  {
    var k1 := Add(k, key, n);
    assert forall other :: Queue(k1, other) == Queue(k, other);
  }

  lemma AddSound(k: K, key: Key, n: int)
    requires Inv(k) && Bounded(k)
    ensures Inv(Add(k, key, n)) && Bounded(Add(k, key, n))
  {
    hide InvAt;
    var loc: seq<Place> :| InvAt(k, loc);
    AddKeeps(k, loc, key, n);
  }

  lemma PIs(k: K, cpu: nat, key: Key, s: PState)
    requires Inv(k) && Bounded(k) && cpu < NCPU && k.running[cpu].Some?
    ensures PSpec(k, cpu, key, s, P(k, cpu, key, s))
  {
    hide Inv, Blocked, Woke, Stayed, ValueMoves, Block, Wake;
    var k1 := Add(k, key, -1);
    AddSound(k, key, -1);
    BlockIs(k1, cpu, key, s);
    WakeIs(k1, key);
    AfterAdd(k, cpu, key, -1, s, P(k, cpu, key, s));
  }

  lemma VIs(k: K, cpu: nat, key: Key, s: PState)
    requires Inv(k) && Bounded(k) && cpu < NCPU && k.running[cpu].Some?
    ensures VSpec(k, cpu, key, s, V(k, cpu, key, s))
  {
    hide Inv, Blocked, Woke, Stayed, ValueMoves, Block, Wake;
    var k1 := Add(k, key, 1);
    AddSound(k, key, 1);
    BlockIs(k1, cpu, key, s);
    WakeIs(k1, key);
    AfterAdd(k, cpu, key, 1, s, V(k, cpu, key, s));
  }

  lemma DoIOIs(k: K, cpu: nat, addr: nat, s: PState)
    requires Inv(k) && Bounded(k) && cpu < NCPU && k.running[cpu].Some? && HasSemaphore(addr)
    ensures DoIOSpec(k, cpu, addr, s, DoIO(k, cpu, addr, s))
  {
    hide Inv, Blocked, Woke, ValueMoves, Block, FindDeviceIndex;
    var key := Dev(IndexOf(addr));
    AddSound(k, key, -1);
    BlockIs(Add(k, key, -1), cpu, key, s);
    AfterAdd(k, cpu, key, -1, s, DoIO(k, cpu, addr, s));
  }

  lemma ClockWaitIs(k: K, cpu: nat, s: PState)
    requires Inv(k) && Bounded(k) && cpu < NCPU && k.running[cpu].Some?
    ensures ClockWaitSpec(k, cpu, s, ClockWait(k, cpu, s))
  {
    hide Inv, Bounded, Blocked, Block;
    InsertBlockedNeverFails(k, cpu, Dev(PSEUDOCLOCK));
    BlockIs(k, cpu, Dev(PSEUDOCLOCK), s);
  }

  lemma CreateIs(k: K, cpu: nat, st: PState)
    requires Inv(k) && Bounded(k) && cpu < NCPU && k.free != []
    ensures CreateSpec(k, cpu, st, k.nextPid, Create(k, cpu, st))
  {
    var loc: seq<Place> :| InvAt(k, loc);
    RunningLive(k, loc, cpu);
    HoldsPop(k.free, loc, InFree, InReady);
    assert k.running[cpu] != Some(k.free[0]);
  }

  lemma PltIs(k: K, cpu: nat, s: PState)
    requires Bounded(k) && cpu < NCPU && k.running[cpu].Some?
    ensures PltSpec(k, cpu, s, Plt(k, cpu, s))
  {
  }

  lemma TickIs(k: K)
    ensures TickSpec(k, Tick(k))
  {
  }

  lemma SchedIs(k: K, cpu: nat)
    requires Bounded(k) && cpu < NCPU
    ensures SchedSpec(k, cpu, Dispatch(k, cpu))
  {
  }

  lemma BootIs(s: PState, pcb: seq<Pcb>, val: map<Key, int>, n: nat)
    requires |pcb| == MAXPROC == n + 1
    ensures BootSpec(Boot(s, pcb, val), s)
  {
    var k := Boot(s, pcb, val);
    forall q: nat | q < n ensures q in k.free {
      assert k.free[n - 1 - q] == q;
    }
    assert OnlyProcess(k, n, s);
  }

  /** Every step of the machine does what is said of its event. */
  lemma StepIs(k: K, e: Event, k': K)
    requires Inv(k) && Bounded(k) && Next(k, e, k')
    ensures StepSpec(k, e, k')
  {
    hide Inv, Bounded, Create, P, V, DoIO, ClockWait, Plt, Tick, Interrupt, Dispatch, Terminates, IsTarget,
      CreateSpec, PSpec, VSpec, DoIOSpec, ClockWaitSpec, PltSpec, TickSpec, SchedSpec, Devices.InterruptSpec,
      Exactness.TermSpec;
    match e {
      case CreateE(cpu, st) =>
        if k.free == [] {
          NoneFree(k, cpu, st);
        } else {
          CreateIs(k, cpu, st);
        }
      case PE(cpu, key, st) => PIs(k, cpu, key, st);
      case VE(cpu, key, st) => VIs(k, cpu, key, st);
      case DoIOE(cpu, addr, st) => DoIOIs(k, cpu, addr, st);
      case ClockWaitE(cpu, st) => ClockWaitIs(k, cpu, st);
      case PltE(cpu, st) => PltIs(k, cpu, st);
      case TickE(_) => TickIs(k);
      case InterruptE(_, line, dev, reg0, reg2) => Devices.InterruptSignals(k, line, dev, reg0, reg2);
      case SchedE(cpu) => SchedIs(k, cpu);
      case TermE(cpu, pid) => Exactness.TerminatedByPid(k, cpu, pid, k');
    }
  }

  lemma NoneFree(k: K, cpu: nat, st: PState)
    requires Bounded(k) && cpu < NCPU && k.free == []
    ensures Create(k, cpu, st) == k
  {
  }
}
