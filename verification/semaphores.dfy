/** Semaphores over whole runs: PASSEREN and VERHOGEN on one integer behave as a binary semaphore
  * with a FIFO queue on either side. */
module Semaphores {
  import opened KernelTypes
  import opened KernelState
  import opened KernelInv
  import opened KernelRun
  import KernelTerm
  import ListX

  function Queue(k: K, key: Key): seq<nat> {
    if key in k.blocked then k.blocked[key] else []
  }

  /** The semaphore an event operates on. */
  function Touches(e: Event): Option<Key> {
    match e
    case PE(_, key, _) => Some(key)
    case VE(_, key, _) => Some(key)
    case DoIOE(_, addr, _) => if HasSemaphore(addr) then Some(Dev(IndexOf(addr))) else None
    case ClockWaitE(_, _) => Some(Dev(PSEUDOCLOCK))
    case TickE(_) => Some(Dev(PSEUDOCLOCK))
    case InterruptE(_, line, dev, reg0, reg2) =>
      if 3 <= line <= 7 && dev < 8 && InterruptKey(line, dev, reg0, reg2).Some?
      then Some(Dev(InterruptKey(line, dev, reg0, reg2).value.0)) else None
    case _ => None
  }

  lemma QueueKnown(k: K, key: Key)
    requires Inv(k) && Bounded(k)
    ensures ListX.NoDup(Queue(k, key))
    ensures forall p :: p in Queue(k, key) ==> p < MAXPROC && k.pcb[p].semAdd == Some(key)
  {
    var loc: seq<Place> :| InvAt(k, loc);
    if key in k.blocked {
      assert Holds(k.blocked[key], loc, InQueue(key));
    }
  }

  // ---------------------------------------------------------------- terminations

  ghost predicate IsCondemned(k: K, e: Event, m: nat)
    requires Shape(k) && e.cpu < NCPU
  {
    e.TermE? && exists p: nat :: IsTarget(k, e.cpu, e.pid, Some(p)) && m in Subtree(k, p)
  }

  /** The processes that event e terminates: the subtree of its target, if it has one. */
  ghost function Condemned(k: K, e: Event): set<nat>
    requires Shape(k) && e.cpu < NCPU
  {
    set m: nat | m < MAXPROC && IsCondemned(k, e, m)
  }

  lemma OneTarget(k: K, cpu: nat, pid: int, p: nat, q: nat)
    requires Inv(k) && Shape(k) && cpu < NCPU
    requires IsTarget(k, cpu, pid, Some(p)) && IsTarget(k, cpu, pid, Some(q))
    ensures p == q
  {
    hide Inv;
    TargetLive(k, cpu, pid, p);
    TargetLive(k, cpu, pid, q);
    InvForest(k);
  }

  lemma CondemnedIs(k: K, e: Event, t: Option<nat>)
    requires Inv(k) && Shape(k) && e.cpu < NCPU && e.TermE? && IsTarget(k, e.cpu, e.pid, t)
    ensures Condemned(k, e) == if t.Some? then Subtree(k, t.value) else {}
  {
    hide Inv;
    forall p: nat | IsTarget(k, e.cpu, e.pid, Some(p)) ensures t == Some(p) {
      if t.Some? {
        OneTarget(k, e.cpu, e.pid, p, t.value);
      }
    }
    if t.Some? {
      assert forall m :: m in Subtree(k, t.value) ==> IsCondemned(k, e, m);
    }
  }

  /** The condemned processes that carry the address of a semaphore without waiting on it. */
  ghost function OldCarriers(k: K, e: Event, key: Key): set<nat>
    requires Shape(k) && e.cpu < NCPU
  {
    set m | m in Charged(k.pcb, Condemned(k, e), key) && m !in Queue(k, key)
  }

  /** A terminating step none of whose processes carries the address of this semaphore. */
  ghost predicate Spares(k: K, e: Event, key: Key) {
    e.TermE? && Shape(k) && e.cpu < NCPU ==> Charged(k.pcb, Condemned(k, e), key) == {}
  }

  /** A terminating step whose processes carry the address only if they are blocked in a P on it. */
  ghost predicate Orderly(k: K, e: Event, key: Key) {
    e.TermE? && Shape(k) && e.cpu < NCPU ==>
      forall m :: m in Charged(k.pcb, Condemned(k, e), key) ==> Get(k.val, key) < 0 && m in Queue(k, key)
  }

  /** A termination takes the condemned waiters out of the queue, keeps the order of the others, and
    * signals once for each condemned carrier: value plus queue length grows by those that did not wait. */
  lemma TerminationHere(k: K, e: Event, k': K, key: Key)
    requires Inv(k) && Bounded(k) && e.TermE? && Next(k, e, k')
    ensures Queue(k', key) == Without(Queue(k, key), Condemned(k, e))
    ensures Get(k'.val, key) == Get(k.val, key) + |Charged(k.pcb, Condemned(k, e), key)|
    ensures Get(k'.val, key) + |Queue(k', key)| == Get(k.val, key) + |Queue(k, key)| + |OldCarriers(k, e, key)|
  {
    hide Inv, Subtree, Guarded, Freed, Detached, Queue, Condemned, Charged, Removed;
    var t :| IsTarget(k, e.cpu, e.pid, t) && Terminates(k, e.cpu, t, k');
    CondemnedIs(k, e, t);
    if t.None? {
      KernelTerm.WithoutNone(Queue(k, key), {});
      NobodyCharged(k, key);
    } else {
      WaitersRemoved(k, e.cpu, Subtree(k, t.value), Detached(k, t.value), k', key);
    }
    SplitCharged(k, e, key);
  }

  lemma NobodyCharged(k: K, key: Key)
    ensures Charged(k.pcb, {}, key) == {}
  {
  }

  lemma WaitersRemoved(k: K, cpu: nat, S: set<nat>, D: set<nat>, k': K, key: Key)
    requires Inv(k) && Bounded(k) && Removed(k, cpu, S, D, k')
    ensures Queue(k', key) == Without(Queue(k, key), S)
    ensures Get(k'.val, key) == Get(k.val, key) + |Charged(k.pcb, S, key)|
  {
    hide Inv, Freed, Guarded;
  }

  /** The condemned carriers are those among the waiters and the old ones. */
  lemma SplitCharged(k: K, e: Event, key: Key)
    requires Inv(k) && Bounded(k) && e.cpu < NCPU
    ensures var q, S := Queue(k, key), Condemned(k, e);
      && |Charged(k.pcb, S, key)| == |KernelTerm.Among(q, S)| + |OldCarriers(k, e, key)|
      && |Without(q, S)| == |q| - |KernelTerm.Among(q, S)|
  {
    hide Inv, Condemned, Without;
    var q, S := Queue(k, key), Condemned(k, e);
    QueueKnown(k, key);
    KernelTerm.WithoutSize(q, S);
    hide Queue;
    assert Charged(k.pcb, S, key) == KernelTerm.Among(q, S) + OldCarriers(k, e, key);
  }

  // ---------------------------------------------------------------- steps elsewhere

  lemma BlockElsewhere(k: K, cpu: nat, key: Key, st: PState, other: Key)
    requires Busy(k, cpu) && other != key
    ensures Queue(Block(k, cpu, key, st), other) == Queue(k, other)
    ensures Block(k, cpu, key, st).val == k.val
  {
  }

  lemma WakeElsewhere(k: K, key: Key, other: Key)
    requires (key in k.blocked ==> k.blocked[key] != []) && other != key
    ensures Queue(Wake(k, key), other) == Queue(k, other)
    ensures Wake(k, key).val == k.val
  {
  }

  lemma RemovalElsewhere(k: K, cpu: nat, S: set<nat>, D: set<nat>, k': K, key: Key)
    requires Inv(k) && Shape(k) && Removed(k, cpu, S, D, k') && Charged(k.pcb, S, key) == {}
    ensures Queue(k', key) == Queue(k, key)
    ensures Get(k'.val, key) == Get(k.val, key)
  {
    var loc: seq<Place> :| InvAt(k, loc);
    if key in k.blocked {
      forall p | p in k.blocked[key] ensures p !in S {
        assert p in S ==> p in Charged(k.pcb, S, key);
      }
      KernelTerm.WithoutNone(k.blocked[key], S);
    }
  }

  /** A step that does not operate on a semaphore leaves its value and its queue alone. */
  lemma StepElsewhere(k: K, e: Event, k': K, key: Key)
    requires Inv(k) && Bounded(k) && Next(k, e, k') && Touches(e) != Some(key) && Spares(k, e, key)
    ensures Queue(k', key) == Queue(k, key)
    ensures Get(k'.val, key) == Get(k.val, key)
  {
    hide Inv, Block, Wake, Queue, Removed, Create, Plt, Dispatch;
    match e {
      case PE(cpu, s, st) =>
        BlockElsewhere(Add(k, s, -1), cpu, s, st, key);
        WakeElsewhere(Add(k, s, -1), s, key);
        SameQueue(k, Add(k, s, -1), key);
      case VE(cpu, s, st) =>
        BlockElsewhere(Add(k, s, 1), cpu, s, st, key);
        WakeElsewhere(Add(k, s, 1), s, key);
        SameQueue(k, Add(k, s, 1), key);
      case DoIOE(cpu, addr, st) =>
        var s := Dev(IndexOf(addr));
        BlockElsewhere(Add(k, s, -1), cpu, s, st, key);
        SameQueue(k, Add(k, s, -1), key);
      case ClockWaitE(cpu, st) => BlockElsewhere(k, cpu, Dev(PSEUDOCLOCK), st, key);
      case TickE(_) => TickElsewhere(k, key);
      case InterruptE(_, line, dev, reg0, reg2) => SignalElsewhere(k, line, dev, reg0, reg2, key);
      case CreateE(cpu, st) => QuietSteps(k, cpu, st, key);
      case PltE(cpu, st) => QuietSteps(k, cpu, st, key);
      case SchedE(cpu) => QuietSteps(k, cpu, PState(0, 0), key);
      case TermE(cpu, pid) =>
        var t :| IsTarget(k, cpu, pid, t) && Terminates(k, cpu, t, k');
        CondemnedIs(k, e, t);
        if t.Some? {
          RemovalElsewhere(k, cpu, Subtree(k, t.value), Detached(k, t.value), k', key);
        }
    }
  }

  lemma SameQueue(k: K, k': K, key: Key)
    requires k'.blocked == k.blocked
    ensures Queue(k', key) == Queue(k, key)
  {
  }

  lemma QuietSteps(k: K, cpu: nat, st: PState, key: Key)
    requires Bounded(k) && cpu < NCPU
    ensures var k' := Create(k, cpu, st); Queue(k', key) == Queue(k, key) && k'.val == k.val
    ensures var k' := Dispatch(k, cpu); Queue(k', key) == Queue(k, key) && k'.val == k.val
    ensures k.running[cpu].Some? ==> var k' := Plt(k, cpu, st); Queue(k', key) == Queue(k, key) && k'.val == k.val
  {
  }

  lemma TickElsewhere(k: K, key: Key)
    requires key != Dev(PSEUDOCLOCK)
    ensures Queue(Tick(k), key) == Queue(k, key) && Tick(k).val == k.val
  {
  }

  lemma SignalElsewhere(k: K, line: nat, dev: nat, reg0: nat, reg2: nat, key: Key)
    requires Bounded(k) && 3 <= line <= 7 && dev < 8
    requires InterruptKey(line, dev, reg0, reg2).Some? ==> Dev(InterruptKey(line, dev, reg0, reg2).value.0) != key
    ensures Queue(Interrupt(k, line, dev, reg0, reg2), key) == Queue(k, key)
    ensures Get(Interrupt(k, line, dev, reg0, reg2).val, key) == Get(k.val, key)
  {
    hide FindDeviceIndex;
    var i := InterruptKey(line, dev, reg0, reg2);
    if i.Some? {
      var s := Dev(i.value.0);
      WakeElsewhere(Add(k, s, 1), s, key);
    }
  }

  // ---------------------------------------------------------------- steps on the semaphore

  /** The queue of a semaphore of value v after a P by p: p joins it, or its head leaves it. */
  function PQueue(v: int, q: seq<nat>, p: nat): seq<nat> {
    if v <= 0 then q + [p] else if v >= 2 && q != [] then q[1..] else q
  }

  /** ... and after a V. */
  function VQueue(v: int, q: seq<nat>, p: nat): seq<nat> {
    if v >= 1 then q + [p] else if v <= -1 && q != [] then q[1..] else q
  }

  lemma PHere(k: K, cpu: nat, key: Key, st: PState)
    requires Inv(k) && Bounded(k) && cpu < NCPU && k.running[cpu].Some?
    ensures var k', v, q := P(k, cpu, key, st), Get(k.val, key), Queue(k, key);
            && Get(k'.val, key) == v - 1
            && Queue(k', key) == PQueue(v, q, k.running[cpu].value)
  {
    hide Inv;
    InsertBlockedNeverFails(k, cpu, key);
  }

  lemma VHere(k: K, cpu: nat, key: Key, st: PState)
    requires Inv(k) && Bounded(k) && cpu < NCPU && k.running[cpu].Some?
    ensures var k', v, q := V(k, cpu, key, st), Get(k.val, key), Queue(k, key);
            && Get(k'.val, key) == v + 1
            && Queue(k', key) == VQueue(v, q, k.running[cpu].value)
  {
    hide Inv;
    InsertBlockedNeverFails(k, cpu, key);
  }

  // ---------------------------------------------------------------- the history of a run

  datatype Kind = PKind | VKind

  /** Event e in state k is a P or a V on the key, issued by PCB p. */
  predicate Issues(k: K, e: Event, key: Key, kind: Kind, p: nat) {
    && (match kind case PKind => e.PE? && e.key == key case VKind => e.VE? && e.key == key)
    && e.cpu < |k.running| && k.running[e.cpu] == Some(p)
  }

  predicate IsKind(e: Event, key: Key, kind: Kind) {
    match kind case PKind => e.PE? && e.key == key case VKind => e.VE? && e.key == key
  }

  /** How many Ps (or Vs) on the key were issued in the first n events. */
  ghost function Issued(es: seq<Event>, n: nat, key: Key, kind: Kind): nat
    requires n <= |es|
  {
    if n == 0 then 0 else Issued(es, n - 1, key, kind) + if IsKind(es[n - 1], key, kind) then 1 else 0
  }

  /** The last operation on the key that PCB p issued in the first n events. */
  ghost function LastKind(ks: seq<K>, es: seq<Event>, n: nat, key: Key, p: nat): Option<Kind>
    requires n <= |es| < |ks|
  {
    if n == 0 then None
    else if Issues(ks[n - 1], es[n - 1], key, PKind, p) then Some(PKind)
    else if Issues(ks[n - 1], es[n - 1], key, VKind, p) then Some(VKind)
    else LastKind(ks, es, n - 1, key, p)
  }

  /** How many Ps (or Vs) step n completes: the one issued, unless its caller joins the queue, and
    * the one a woken waiter had issued. */
  ghost function Completes(ks: seq<K>, es: seq<Event>, n: nat, key: Key, kind: Kind): nat
    requires n < |es| < |ks|
  {
    var q, q' := Queue(ks[n], key), Queue(ks[n + 1], key);
    if es[n].TermE? then 0
    else
      (if IsKind(es[n], key, kind) && |q'| <= |q| then 1 else 0)
      + (if |q'| < |q| && LastKind(ks, es, n, key, q[0]) == Some(kind) then 1 else 0)
  }

  ghost function Completed(ks: seq<K>, es: seq<Event>, n: nat, key: Key, kind: Kind): nat
    requires n <= |es| < |ks|
  {
    if n == 0 then 0 else Completed(ks, es, n - 1, key, kind) + Completes(ks, es, n - 1, key, kind)
  }

  /** How many waiters were terminated in the first n events. */
  ghost function Lost(ks: seq<K>, es: seq<Event>, n: nat, key: Key): int
    requires n <= |es| < |ks|
  {
    if n == 0 then 0
    else
      Lost(ks, es, n - 1, key) + if es[n - 1].TermE? then |Queue(ks[n - 1], key)| - |Queue(ks[n], key)| else 0
  }

  function Clamp(v: int): int {
    if v < 0 then 0 else if v > 1 then 1 else v
  }

  function QueueLength(v: int): nat {
    if v < 0 then -v else if v > 1 then v - 1 else 0
  }

  /** A run on a semaphore that only P and V operate on, started at 0 or 1 with nobody waiting. */
  ghost predicate SemaphoreStart(ks: seq<K>, es: seq<Event>, key: Key, init: int) {
    Run(ks, es) && key.User? && 0 <= init <= 1 && Get(ks[0].val, key) == init && key !in ks[0].blocked
  }

  ghost predicate AllOfKind(ks: seq<K>, es: seq<Event>, n: nat, key: Key, kind: Kind)
    requires n <= |es| < |ks|
  {
    forall p :: p in Queue(ks[n], key) ==> LastKind(ks, es, n, key, p) == Some(kind)
  }

  /** The value counts the operations issued and the waiters terminated. */
  ghost predicate ValueLaw(ks: seq<K>, es: seq<Event>, n: nat, key: Key, init: int)
    requires n <= |es| < |ks|
  {
    Get(ks[n].val, key) == init + Issued(es, n, key, VKind) - Issued(es, n, key, PKind) + Lost(ks, es, n, key)
  }

  /** The value tells the length of the queue. */
  ghost predicate QueueLaw(ks: seq<K>, n: nat, key: Key)
    requires n < |ks|
  {
    |Queue(ks[n], key)| == QueueLength(Get(ks[n].val, key))
  }

  ghost predicate SemaphoreOk(ks: seq<K>, es: seq<Event>, n: nat, key: Key, init: int)
    requires n <= |es| < |ks|
  {
    var v := Get(ks[n].val, key);
    && ValueLaw(ks, es, n, key, init)
    && QueueLaw(ks, n, key)
    && (v < 0 ==> AllOfKind(ks, es, n, key, PKind))
    && (v > 1 ==> AllOfKind(ks, es, n, key, VKind))
    && init + Completed(ks, es, n, key, VKind) - Completed(ks, es, n, key, PKind) == Clamp(v)
  }

  /** A waiting process is not running, so it issues nothing while it waits. */
  lemma WaitersAreSilent(k: K, key: Key, e: Event, p: nat)
    requires Inv(k) && p in Queue(k, key)
    ensures !Issues(k, e, key, PKind, p) && !Issues(k, e, key, VKind, p)
  {
    var loc: seq<Place> :| InvAt(k, loc);
    assert Holds(k.blocked[key], loc, InQueue(key));
  }

  lemma KindsKept(ks: seq<K>, es: seq<Event>, n: nat, key: Key, kind: Kind)
    requires Run(ks, es) && n < |es| && AllOfKind(ks, es, n, key, kind)
    ensures forall p :: p in Queue(ks[n], key) ==> LastKind(ks, es, n + 1, key, p) == Some(kind)
  {
    RunInv(ks, es, n);
    forall p | p in Queue(ks[n], key) ensures LastKind(ks, es, n + 1, key, p) == Some(kind) {
      WaitersAreSilent(ks[n], key, es[n], p);
    }
  }

  lemma QuietStep(ks: seq<K>, es: seq<Event>, n: nat, key: Key, init: int)
    requires SemaphoreStart(ks, es, key, init) && n < |es| && SemaphoreOk(ks, es, n, key, init)
    requires Touches(es[n]) != Some(key) && !es[n].TermE?
    ensures SemaphoreOk(ks, es, n + 1, key, init)
  {
    hide Inv, Next, Bounded, Queue, LastKind, Orderly, QueueLength, Clamp;
    RunInv(ks, es, n);
    StepElsewhere(ks[n], es[n], ks[n + 1], key);
    if Get(ks[n].val, key) < 0 { KindsKept(ks, es, n, key, PKind); }
    if Get(ks[n].val, key) > 1 { KindsKept(ks, es, n, key, VKind); }
  }

  /** Given the law before a termination, which parts of it hold after: the value law exactly if no
    * condemned process is an old carrier, and then the queue law exactly if the condemned carriers, if
    * any, were blocked in a P. */
  lemma WhatTerminationBreaks(ks: seq<K>, es: seq<Event>, n: nat, key: Key, init: int)
    requires SemaphoreStart(ks, es, key, init) && n < |es| && SemaphoreOk(ks, es, n, key, init) && es[n].TermE?
    ensures Shape(ks[n]) && es[n].cpu < NCPU
    ensures ValueLaw(ks, es, n + 1, key, init) <==> OldCarriers(ks[n], es[n], key) == {}
    ensures OldCarriers(ks[n], es[n], key) == {} ==>
      (QueueLaw(ks, n + 1, key) <==> Get(ks[n].val, key) < 0 || Charged(ks[n].pcb, Condemned(ks[n], es[n]), key) == {})
  {
    hide Inv, Bounded, Queue, Condemned, OldCarriers, Charged, Without;
    RunStep(ks, es, n);
    TerminationHere(ks[n], es[n], ks[n + 1], key);
    SplitCharged(ks[n], es[n], key);
  }

  lemma KindsLeft(ks: seq<K>, es: seq<Event>, n: nat, key: Key)
    requires Run(ks, es) && n < |es| && es[n].TermE?
    ensures AllOfKind(ks, es, n, key, PKind) ==> AllOfKind(ks, es, n + 1, key, PKind)
    ensures AllOfKind(ks, es, n, key, VKind) ==> AllOfKind(ks, es, n + 1, key, VKind)
  {
    hide Inv, Bounded, Queue, LastKind, Condemned, Terminates;
    RunStep(ks, es, n);
    TerminationHere(ks[n], es[n], ks[n + 1], key);
    KernelTerm.WithoutMembers(Queue(ks[n], key), Condemned(ks[n], es[n]));
    if AllOfKind(ks, es, n, key, PKind) { KindsKept(ks, es, n, key, PKind); }
    if AllOfKind(ks, es, n, key, VKind) { KindsKept(ks, es, n, key, VKind); }
  }

  /** A termination keeps the law if and only if its processes carry the address only while blocked in a
    * P on it. */
  lemma TermStep(ks: seq<K>, es: seq<Event>, n: nat, key: Key, init: int)
    requires SemaphoreStart(ks, es, key, init) && n < |es| && SemaphoreOk(ks, es, n, key, init) && es[n].TermE?
    ensures SemaphoreOk(ks, es, n + 1, key, init) <==> Orderly(ks[n], es[n], key)
  {
    hide Inv, Bounded, Next, Queue, Condemned, LastKind, Issued, Without, AllOfKind, Charged, ValueLaw;
    WhatTerminationBreaks(ks, es, n, key, init);
    OrderlyIs(ks[n], es[n], key);
    KindsLeft(ks, es, n, key);
    RunStep(ks, es, n);
    TerminationHere(ks[n], es[n], ks[n + 1], key);
    SplitCharged(ks[n], es[n], key);
  }

  lemma OrderlyIs(k: K, e: Event, key: Key)
    requires Shape(k) && e.TermE? && e.cpu < NCPU
    ensures Orderly(k, e, key) <==>
      OldCarriers(k, e, key) == {} && (Get(k.val, key) < 0 || Charged(k.pcb, Condemned(k, e), key) == {})
  {
    hide Condemned, Charged, Queue;
    forall m | m in Charged(k.pcb, Condemned(k, e), key) && m !in Queue(k, key) ensures m in OldCarriers(k, e, key) {
    }
  }

  lemma QueueGrew(ks: seq<K>, es: seq<Event>, n: nat, key: Key, kind: Kind, p: nat)
    requires Run(ks, es) && n < |es| && Issues(ks[n], es[n], key, kind, p)
    requires Queue(ks[n + 1], key) == Queue(ks[n], key) + [p]
    requires AllOfKind(ks, es, n, key, kind)
    ensures AllOfKind(ks, es, n + 1, key, kind)
  {
    hide Queue, Inv;
    KindsKept(ks, es, n, key, kind);
  }

  lemma QueueShrank(ks: seq<K>, es: seq<Event>, n: nat, key: Key, kind: Kind)
    requires Run(ks, es) && n < |es| && AllOfKind(ks, es, n, key, kind)
    requires Queue(ks[n], key) != [] && Queue(ks[n + 1], key) == Queue(ks[n], key)[1..]
    ensures AllOfKind(ks, es, n + 1, key, kind)
    ensures LastKind(ks, es, n, key, Queue(ks[n], key)[0]) == Some(kind)
  {
    hide Queue, Inv;
    KindsKept(ks, es, n, key, kind);
    assert Queue(ks[n], key)[0] in Queue(ks[n], key);
    var m := n + 1;
    forall p | p in Queue(ks[m], key) ensures LastKind(ks, es, m, key, p) == Some(kind) {
      assert p in Queue(ks[n], key);
    }
  }

  lemma PStep(ks: seq<K>, es: seq<Event>, n: nat, key: Key, init: int)
    requires SemaphoreStart(ks, es, key, init) && n < |es| && SemaphoreOk(ks, es, n, key, init)
    requires es[n].PE? && es[n].key == key
    ensures SemaphoreOk(ks, es, n + 1, key, init)
  {
    hide Inv, Bounded, Queue, P, Orderly, LastKind, AllOfKind;
    RunStep(ks, es, n);
    var v, q, cpu := Get(ks[n].val, key), Queue(ks[n], key), es[n].cpu;
    PHere(ks[n], cpu, key, es[n].st);
    if v <= 0 {
      if v == 0 { EmptyIsAnyKind(ks, es, n, key); }
      QueueGrew(ks, es, n, key, PKind, ks[n].running[cpu].value);
    } else if v >= 2 {
      QueueShrank(ks, es, n, key, VKind);
    }
  }

  lemma VStep(ks: seq<K>, es: seq<Event>, n: nat, key: Key, init: int)
    requires SemaphoreStart(ks, es, key, init) && n < |es| && SemaphoreOk(ks, es, n, key, init)
    requires es[n].VE? && es[n].key == key
    ensures SemaphoreOk(ks, es, n + 1, key, init)
  {
    hide Inv, Bounded, Queue, V, Orderly, LastKind, AllOfKind;
    RunStep(ks, es, n);
    var v, q, cpu := Get(ks[n].val, key), Queue(ks[n], key), es[n].cpu;
    VHere(ks[n], cpu, key, es[n].st);
    if v >= 1 {
      if v == 1 { EmptyIsAnyKind(ks, es, n, key); }
      QueueGrew(ks, es, n, key, VKind, ks[n].running[cpu].value);
    } else if v <= -1 {
      QueueShrank(ks, es, n, key, PKind);
    }
  }

  lemma EmptyIsAnyKind(ks: seq<K>, es: seq<Event>, n: nat, key: Key)
    requires n <= |es| < |ks| && Queue(ks[n], key) == []
    ensures AllOfKind(ks, es, n, key, PKind) && AllOfKind(ks, es, n, key, VKind)
  {
  }

  lemma OtherStep(ks: seq<K>, es: seq<Event>, n: nat, key: Key, init: int)
    requires SemaphoreStart(ks, es, key, init) && n < |es| && SemaphoreOk(ks, es, n, key, init)
    requires !es[n].TermE?
    ensures SemaphoreOk(ks, es, n + 1, key, init)
  {
    hide SemaphoreOk, SemaphoreStart;
    if es[n].PE? && es[n].key == key {
      PStep(ks, es, n, key, init);
    } else if es[n].VE? && es[n].key == key {
      VStep(ks, es, n, key, init);
    } else {
      NotOnUser(ks, es, n, key, init);
      QuietStep(ks, es, n, key, init);
    }
  }

  lemma NotOnUser(ks: seq<K>, es: seq<Event>, n: nat, key: Key, init: int)
    requires SemaphoreStart(ks, es, key, init) && n < |es|
    requires !(es[n].PE? && es[n].key == key) && !(es[n].VE? && es[n].key == key)
    ensures Touches(es[n]) != Some(key)
  {
    hide Run;
  }

  lemma AtStart(ks: seq<K>, es: seq<Event>, key: Key, init: int)
    requires SemaphoreStart(ks, es, key, init)
    ensures |es| < |ks| && SemaphoreOk(ks, es, 0, key, init)
  {
    hide Inv, Next;
  }

  /** At every point of every run whose terminations are orderly: v = initial + Vs issued - Ps issued +
    * waiters terminated; the queue holds max(-v, v-1, 0) waiters, all of them blocked in a P when v < 0
    * and all in a V when v > 1; and the operations completed so far make a binary value: initial + Vs
    * completed - Ps completed = v clamped to {0,1}. */
  lemma {:induction false} BinarySemaphore(ks: seq<K>, es: seq<Event>, n: nat, key: Key, init: int)
    requires SemaphoreStart(ks, es, key, init) && n <= |es|
    requires forall i :: 0 <= i < n ==> Orderly(ks[i], es[i], key)
    ensures SemaphoreOk(ks, es, n, key, init)
  {
    hide SemaphoreOk, SemaphoreStart, Orderly;
    AtStart(ks, es, key, init);
    if n > 0 {
      var m := n - 1;
      BinarySemaphore(ks, es, m, key, init);
      if es[m].TermE? {
        TermStep(ks, es, m, key, init);
      } else {
        OtherStep(ks, es, m, key, init);
      }
    }
  }

  /** The law holds throughout a run if and only if every termination in it is orderly: the terminated
    * processes carry the address only while blocked in a P on the semaphore. */
  lemma BinarySemaphoreExactly(ks: seq<K>, es: seq<Event>, key: Key, init: int)
    requires SemaphoreStart(ks, es, key, init)
    ensures |es| < |ks|
    ensures (forall n: nat :: n <= |es| ==> SemaphoreOk(ks, es, n, key, init)) <==>
      (forall i: nat :: i < |es| ==> Orderly(ks[i], es[i], key))
  {
    hide SemaphoreOk, SemaphoreStart;
    AtStart(ks, es, key, init);
    if forall i: nat :: i < |es| ==> Orderly(ks[i], es[i], key) {
      forall n: nat | n <= |es| ensures SemaphoreOk(ks, es, n, key, init) {
        BinarySemaphore(ks, es, n, key, init);
      }
    }
    if forall n: nat :: n <= |es| ==> SemaphoreOk(ks, es, n, key, init) {
      forall i: nat | i < |es| ensures Orderly(ks[i], es[i], key) {
        assert SemaphoreOk(ks, es, i, key, init) && SemaphoreOk(ks, es, i + 1, key, init);
        if es[i].TermE? {
          TermStep(ks, es, i, key, init);
        }
      }
    }
  }
}
