/** Runs from the initial state to the states in which termination goes wrong.  A semaphore is a word at any
  * address other than NULL. */
module Reachable {
  import opened KernelTypes
  import opened KernelState
  import opened KernelInv
  import opened KernelRun
  import opened KernelWalk
  import opened Exactness
  import Devices
  import KernelTerm
  import Resume
  import Sections
  import Semaphores

  const FIRST: nat := MAXPROC - 1     // the process main creates
  const SECOND: nat := MAXPROC - 2    // the first one it creates
  const THIRD: nat := MAXPROC - 3

  /** A run from the state main builds. */
  ghost predicate FromBoot(ks: seq<K>, es: seq<Event>) {
    && Run(ks, es)
    && exists st, pcb: seq<Pcb>, val :: |pcb| == MAXPROC && ks[0] == Boot(st, pcb, val)
  }

  ghost predicate NoTermination(es: seq<Event>) {
    forall i :: 0 <= i < |es| ==> !es[i].TermE?
  }

  lemma Extend(ks: seq<K>, es: seq<Event>, e: Event, k': K)
    requires FromBoot(ks, es)
    requires Bounded(ks[|es|]) && Next(ks[|es|], e, k')
    ensures FromBoot(ks + [k'], es + [e]) && Inv(k') && Bounded(k')
  {
    hide Inv, Next, Bounded, Boot;
    var ks', es' := ks + [k'], es + [e];
    forall i | 0 <= i < |es'| ensures Bounded(ks'[i]) && Next(ks'[i], es'[i], ks'[i + 1]) {
      if i < |es| {
        assert ks'[i] == ks[i] && ks'[i + 1] == ks[i + 1] && es'[i] == es[i];
      }
    }
    assert ks'[0] == ks[0];
    RunInv(ks', es', |es'|);
  }

  /** The first process runs on CPU 0, the second, its child, is ready, the third is the next free one. */
  ghost predicate Started(k: K, a: Address) {
    && Inv(k) && Bounded(k) && k.blocked == map[] && Get(k.val, User(a)) == 0
    && k.running[0] == Some(FIRST) && k.running[1] == None
    && k.ready == [SECOND] && |k.free| == MAXPROC - 2 && k.free[0] == THIRD
    && k.pcb[SECOND].semAdd == None && k.pcb[SECOND].parent == Some(FIRST) && k.pcb[FIRST].parent == None
    && k.children[SECOND] == []
  }

  lemma StartRun(st: PState, pcb: seq<Pcb>, val: map<Key, int>, a: Address) returns (ks: seq<K>, es: seq<Event>)
    requires |pcb| == MAXPROC && (forall p :: 0 <= p < MAXPROC ==> pcb[p].parent == None) && Get(val, User(a)) == 0
    ensures FromBoot(ks, es) && Started(ks[|es|], a)
    ensures ks[0] == Boot(st, pcb, val) && NoTermination(es)
  {
    hide Inv;
    var k0 := Boot(st, pcb, val);
    BootInv(st, pcb, val);
    InvBounded(k0);
    ks, es := [k0], [];
    assert FromBoot(ks, es);
    var k1 := Dispatch(k0, 0);
    Extend(ks, es, SchedE(0), k1);
    ks, es := ks + [k1], es + [SchedE(0)];
    var k2 := Create(k1, 0, st);
    Extend(ks, es, CreateE(0, st), k2);
    ks, es := ks + [k2], es + [CreateE(0, st)];
  }

  // ---------------------------------------------------------------- an old semaphore address

  /** The second process waited on a semaphore, was woken, and is ready with the address it waited on. */
  ghost predicate Woken(k: K, a: Address) {
    && Inv(k) && Bounded(k) && k.blocked == map[] && Get(k.val, User(a)) == 0
    && k.running[0] == Some(FIRST) && k.running[1] == None && k.ready == [SECOND]
    && k.pcb[SECOND].semAdd == Some(User(a)) && k.pcb[SECOND].parent == Some(FIRST)
    && k.children[SECOND] == []
  }

  lemma WakeUp(ks: seq<K>, es: seq<Event>, st: PState, a: Address) returns (ks': seq<K>, es': seq<Event>)
    requires FromBoot(ks, es) && Started(ks[|es|], a)
    ensures FromBoot(ks', es') && Woken(ks'[|es'|], a)
    ensures |ks| > 0 && ks'[0] == ks[0] && (NoTermination(es) ==> NoTermination(es'))
  {
    hide Inv, FromBoot, Block, Wake;
    RunAtLeast(ks, es);
    var k2 := ks[|es|];
    var k3 := Dispatch(k2, 1);
    Extend(ks, es, SchedE(1), k3);
    var k4 := P(k3, 1, User(a), st);
    SemaphoreSteps(k3, st, a);
    Extend(ks + [k3], es + [SchedE(1)], PE(1, User(a), st), k4);
    var k5 := V(k4, 0, User(a), st);
    Extend(ks + [k3] + [k4], es + [SchedE(1)] + [PE(1, User(a), st)], VE(0, User(a), st), k5);
    ks', es' := ks + [k3] + [k4] + [k5], es + [SchedE(1)] + [PE(1, User(a), st)] + [VE(0, User(a), st)];
  }

  lemma RunAtLeast(ks: seq<K>, es: seq<Event>)
    requires FromBoot(ks, es)
    ensures |ks| == |es| + 1
  {
  }

  /** P by the second process on CPU 1 blocks it, V by the first on CPU 0 wakes it. */
  lemma SemaphoreSteps(k: K, st: PState, a: Address)
    requires Inv(k) && Bounded(k) && k.blocked == map[] && Get(k.val, User(a)) == 0 && k.ready == []
    requires k.running[0] == Some(FIRST) && k.running[1] == Some(SECOND)
    ensures var k1 := P(k, 1, User(a), st);
      && Bounded(k1) && Busy(k1, 0)
      && var k2 := V(k1, 0, User(a), st);
      && k2.blocked == map[] && Get(k2.val, User(a)) == 0 && k2.ready == [SECOND]
      && |k2.running| == NCPU && k2.running[0] == Some(FIRST) && k2.running[1] == None
      && |k2.pcb| == MAXPROC && k2.pcb[SECOND].semAdd == Some(User(a)) && k2.pcb[SECOND].parent == k.pcb[SECOND].parent
      && k2.children == k.children
  {
    hide Inv;
  }

  /** The guard fails in a reachable state: the first process can order the termination of the second, or
    * of itself, and lose the invariant. */
  lemma GuardFailsInReach(st: PState, pcb: seq<Pcb>, val: map<Key, int>, a: Address)
    returns (ks: seq<K>, es: seq<Event>, ws: seq<Point>)
    requires |pcb| == MAXPROC && (forall p :: 0 <= p < MAXPROC ==> pcb[p].parent == None) && Get(val, User(a)) == 0
    ensures FromBoot(ks, es) && Rooted(ks[|es|], 0, SECOND) && ks[|es|].running[0] == Some(FIRST)
    ensures IsTarget(ks[|es|], 0, ks[|es|].pcb[SECOND].pid, Some(SECOND))
    ensures !Guarded(ks[|es|], 0, Subtree(ks[|es|], SECOND))
    ensures Path(0, ws) && ws[0] == Point(ks[|es|], [SECOND]) && !Inv(Last(ws).k)
  {
    hide Inv, Guarded, Subtree, Bounded;
    ks, es := StartRun(st, pcb, val, a);
    ks, es := WakeUp(ks, es, st, a);
    RunAtLeast(ks, es);
    var k := ks[|es|];
    WokenUnguarded(k, a);
    ws := TerminationEnds(k, 0, SECOND);
    TerminationSoundExactlyWhenGuarded(k, 0, SECOND, ws);
  }

  lemma WokenUnguarded(k: K, a: Address)
    requires Woken(k, a)
    ensures Rooted(k, 0, SECOND) && k.running[0] == Some(FIRST)
    ensures IsTarget(k, 0, k.pcb[SECOND].pid, Some(SECOND))
    ensures !Guarded(k, 0, Subtree(k, SECOND))
  {
    hide Inv, Subtree, Guarded;
    assert SECOND in k.ready;
    SecondPid(k);
    NotTwice(k, SECOND, InFree, InReady);
    KernelTerm.InOwnSubtree(k, SECOND);
    OldAddress(k, 0, Subtree(k, SECOND), SECOND);
  }

  lemma SecondPid(k: K)
    requires Inv(k) && Shape(k) && k.pcb[SECOND].parent == Some(FIRST)
    ensures k.pcb[SECOND].pid > 0
  {
    hide Inv, TreeOk, PidsOk;
    KernelTerm.InvPidsUp(k);
  }

  lemma OldAddress(k: K, cpu: nat, S: set<nat>, m: nat)
    requires Shape(k) && m in S && m < MAXPROC && k.pcb[m].semAdd.Some? && m in k.ready
    ensures !Guarded(k, cpu, S)
  {
  }

  lemma LeafSubtree(k: K, p: nat)
    requires Inv(k) && Shape(k) && p < MAXPROC && k.children[p] == []
    ensures Subtree(k, p) == {p}
  {
    hide Inv;
    KernelTerm.BranchesOfChildren(k, p);
    assert KernelTerm.Branches(k, []) == {};
    KernelTerm.InOwnSubtree(k, p);
  }

  // ---------------------------------------------------------------- a signal too many

  /** Up to a first termination the semaphore law holds; what the termination adds to value plus queue
    * length decides the value law. */
  lemma LawBeforeTermination(ks: seq<K>, es: seq<Event>, a: Address, st: PState, pcb: seq<Pcb>, val: map<Key, int>)
    requires FromBoot(ks, es) && |es| >= 1 && |pcb| == MAXPROC
    requires |ks| > 0 && ks[0] == Boot(st, pcb, val) && Get(val, User(a)) == 0
    requires NoTermination(es[..|es| - 1]) && es[|es| - 1].TermE?
    ensures |ks| == |es| + 1 && Semaphores.SemaphoreStart(ks, es, User(a), 0)
    ensures Semaphores.SemaphoreOk(ks, es, |es| - 1, User(a), 0)
    ensures Semaphores.ValueLaw(ks, es, |es|, User(a), 0) <==>
      Get(ks[|es|].val, User(a)) + |Semaphores.Queue(ks[|es|], User(a))|
        == Get(ks[|es| - 1].val, User(a)) + |Semaphores.Queue(ks[|es| - 1], User(a))|
  {
    hide Inv, Next, Bounded, Semaphores.SemaphoreOk, Semaphores.ValueLaw, Semaphores.OldCarriers, Semaphores.Queue;
    var n := |es| - 1;
    forall i | 0 <= i < n ensures !es[i].TermE? {
      assert es[..n][i] == es[i];
    }
    Semaphores.BinarySemaphore(ks, es, n, User(a), 0);
    Semaphores.WhatTerminationBreaks(ks, es, n, User(a), 0);
    RunStep(ks, es, n);
    Semaphores.TerminationHere(ks[n], es[n], ks[n + 1], User(a));
  }

  /** A woken process that runs again and terminates itself raises a semaphore nobody waits on: the law
    * held before, and after it the value law fails while the queue law holds. */
  lemma SignalTooManyInReach(st: PState, pcb: seq<Pcb>, val: map<Key, int>, a: Address)
    returns (ks: seq<K>, es: seq<Event>)
    requires |pcb| == MAXPROC && (forall p :: 0 <= p < MAXPROC ==> pcb[p].parent == None) && Get(val, User(a)) == 0
    ensures FromBoot(ks, es) && |ks| == |es| + 1 && |es| >= 1 && es[|es| - 1] == TermE(1, 0)
    ensures Get(ks[|es| - 1].val, User(a)) == 0 && Semaphores.Queue(ks[|es| - 1], User(a)) == []
    ensures Get(ks[|es|].val, User(a)) == 1 && Semaphores.Queue(ks[|es|], User(a)) == []
    ensures Semaphores.SemaphoreStart(ks, es, User(a), 0) && Semaphores.SemaphoreOk(ks, es, |es| - 1, User(a), 0)
    ensures !Semaphores.ValueLaw(ks, es, |es|, User(a), 0) && Semaphores.QueueLaw(ks, |es|, User(a))
  {
    hide Inv, FromBoot, Guarded, Subtree, Removed, Boot, Semaphores.SemaphoreOk, Semaphores.SemaphoreStart,
      Semaphores.ValueLaw;
    ks, es := StartRun(st, pcb, val, a);
    ks, es := WakeUp(ks, es, st, a);
    RunAtLeast(ks, es);
    var k := ks[|es|];
    var k1 := Dispatch(k, 1);
    Extend(ks, es, SchedE(1), k1);
    var k2 := SelfTermination(k1, a);
    Extend(ks + [k1], es + [SchedE(1)], TermE(1, 0), k2);
    var before := es + [SchedE(1)];
    ks, es := ks + [k1] + [k2], es + [SchedE(1)] + [TermE(1, 0)];
    assert es[..|es| - 1] == before;
    LawBeforeTermination(ks, es, a, st, pcb, val);
  }

  lemma SelfTermination(k: K, a: Address) returns (k': K)
    requires Inv(k) && Bounded(k) && k.running[1] == Some(SECOND) && k.children[SECOND] == []
    requires k.pcb[SECOND].semAdd == Some(User(a)) && k.blocked == map[] && Get(k.val, User(a)) == 0
    ensures Next(k, TermE(1, 0), k')
    ensures Get(k'.val, User(a)) == 1 && k'.blocked == map[]
  {
    hide Inv, Subtree, KernelTerm.Reap, Removed;
    RunningNotReady(k, 1);
    OnOneCpu(k, 1);
    LeafSubtree(k, SECOND);
    ParentLive(k, SECOND);
    k' := KernelTerm.Reap(k, 1, SECOND);
    KernelTerm.ReapIsRemoval(k, 1, SECOND);
    assert Freed(k, {SECOND}) == {SECOND};
    Charges(k, k', a);
    assert IsTarget(k, 1, 0, Some(SECOND)) && Terminates(k, 1, Some(SECOND), k');
  }

  lemma OnOneCpu(k: K, cpu: nat)
    requires Inv(k) && Bounded(k) && cpu < NCPU && k.running[cpu].Some?
    ensures forall c :: 0 <= c < NCPU && c != cpu ==> k.running[c] != k.running[cpu]
  {
    forall c | 0 <= c < NCPU && c != cpu ensures k.running[c] != k.running[cpu] {
      NotTwice(k, k.running[cpu].value, OnCpu(c), OnCpu(cpu));
    }
  }

  lemma Charges(k: K, k': K, a: Address)
    requires Shape(k) && Removed(k, 1, {SECOND}, {SECOND}, k')
    requires k.pcb[SECOND].semAdd == Some(User(a)) && k.blocked == map[]
    ensures Get(k'.val, User(a)) == Get(k.val, User(a)) + 1 && k'.blocked == map[]
  {
    assert Charged(k.pcb, {SECOND}, User(a)) == {SECOND};
  }

  // ---------------------------------------------------------------- a V waiter terminated

  /** The second process is blocked in a V: the value is 2. */
  ghost predicate BlockedInV(k: K, a: Address) {
    && Inv(k) && Bounded(k) && k.blocked == map[User(a) := [SECOND]] && Get(k.val, User(a)) == 2
    && k.running[0] == Some(FIRST) && k.pcb[SECOND].semAdd == Some(User(a)) && k.pcb[SECOND].parent == Some(FIRST)
    && k.children[SECOND] == []
  }

  /** A process that blocks in a V on a semaphore of value 1 and is terminated leaves the value 3 and an
    * empty queue: the value law holds, the queue law does not. */
  lemma VWaiterTerminatedInReach(st: PState, pcb: seq<Pcb>, val: map<Key, int>, a: Address)
    returns (ks: seq<K>, es: seq<Event>)
    requires |pcb| == MAXPROC && (forall p :: 0 <= p < MAXPROC ==> pcb[p].parent == None) && Get(val, User(a)) == 0
    ensures FromBoot(ks, es) && |ks| == |es| + 1 && |es| >= 1 && es[|es| - 1].TermE?
    ensures Get(ks[|es| - 1].val, User(a)) == 2 && Semaphores.Queue(ks[|es| - 1], User(a)) == [SECOND]
    ensures Get(ks[|es|].val, User(a)) == 3 && Semaphores.Queue(ks[|es|], User(a)) == []
    ensures Semaphores.SemaphoreStart(ks, es, User(a), 0) && Semaphores.SemaphoreOk(ks, es, |es| - 1, User(a), 0)
    ensures Semaphores.ValueLaw(ks, es, |es|, User(a), 0) && !Semaphores.QueueLaw(ks, |es|, User(a))
  {
    hide Inv, FromBoot, Guarded, Subtree, Removed, Block, Wake, Boot, Semaphores.SemaphoreOk,
      Semaphores.SemaphoreStart, Semaphores.ValueLaw;
    ks, es := StartRun(st, pcb, val, a);
    RunAtLeast(ks, es);
    var k := ks[|es|];
    var k1 := Dispatch(k, 1);
    Extend(ks, es, SchedE(1), k1);
    VSteps(k1, st, a);
    var k2 := V(k1, 0, User(a), st);
    Extend(ks + [k1], es + [SchedE(1)], VE(0, User(a), st), k2);
    var k3 := V(k2, 1, User(a), st);
    Extend(ks + [k1] + [k2], es + [SchedE(1)] + [VE(0, User(a), st)], VE(1, User(a), st), k3);
    var k4, e := VWaiterTermination(k3, a);
    Extend(ks + [k1] + [k2] + [k3], es + [SchedE(1)] + [VE(0, User(a), st)] + [VE(1, User(a), st)], e, k4);
    ks := ks + [k1] + [k2] + [k3] + [k4];
    var before := es + [SchedE(1)] + [VE(0, User(a), st)] + [VE(1, User(a), st)];
    es := before + [e];
    assert es[..|es| - 1] == before;
    LawBeforeTermination(ks, es, a, st, pcb, val);
  }

  lemma VSteps(k: K, st: PState, a: Address)
    requires Inv(k) && Bounded(k) && k.blocked == map[] && Get(k.val, User(a)) == 0
    requires k.running[0] == Some(FIRST) && k.running[1] == Some(SECOND)
    ensures var k1 := V(k, 0, User(a), st);
      && Bounded(k1) && Busy(k1, 1)
      && var k2 := V(k1, 1, User(a), st);
      && k2.blocked == map[User(a) := [SECOND]] && Get(k2.val, User(a)) == 2
      && |k2.running| == NCPU && k2.running[0] == Some(FIRST)
      && |k2.pcb| == MAXPROC && k2.pcb[SECOND].semAdd == Some(User(a)) && k2.pcb[SECOND].parent == k.pcb[SECOND].parent
      && k2.children == k.children
  {
    hide Inv;
    var k1 := V(k, 0, User(a), st);
    assert k1 == Add(k, User(a), 1);
    var none: seq<nat> := [];
    assert none + [SECOND] == [SECOND];
    assert !InsertFails(k1.blocked, User(a));
    assert Enq(k1.blocked, User(a), SECOND) == map[User(a) := [SECOND]];
  }

  lemma VWaiterTermination(k: K, a: Address) returns (k': K, e: Event)
    requires BlockedInV(k, a)
    ensures e.TermE? && Next(k, e, k')
    ensures Get(k'.val, User(a)) == 3 && Semaphores.Queue(k', User(a)) == []
  {
    hide Inv, Subtree, KernelTerm.Reap, Removed;
    SecondPid(k);
    WaiterGuarded(k, a);
    LeafSubtree(k, SECOND);
    ParentLive(k, SECOND);
    k' := KernelTerm.Reap(k, 0, SECOND);
    KernelTerm.ReapIsRemoval(k, 0, SECOND);
    assert Freed(k, {SECOND}) == {SECOND};
    e := TermE(0, k.pcb[SECOND].pid);
    assert IsTarget(k, 0, e.pid, Some(SECOND)) && Terminates(k, 0, Some(SECOND), k');
    WaiterCharged(k, k', a);
  }

  lemma WaiterGuarded(k: K, a: Address)
    requires Inv(k) && Bounded(k) && k.blocked == map[User(a) := [SECOND]]
    ensures Waiting(k, SECOND) && Guarded(k, 0, {SECOND})
  {
    hide Inv;
    assert User(a) in k.blocked && SECOND in k.blocked[User(a)];
    NotTwice(k, SECOND, InReady, InQueue(User(a)));
    forall c | 0 <= c < NCPU ensures k.running[c] != Some(SECOND) {
      NotTwice(k, SECOND, OnCpu(c), InQueue(User(a)));
    }
  }

  lemma WaiterCharged(k: K, k': K, a: Address)
    requires Shape(k) && Removed(k, 0, {SECOND}, {SECOND}, k')
    requires k.pcb[SECOND].semAdd == Some(User(a)) && k.blocked == map[User(a) := [SECOND]] && Get(k.val, User(a)) == 2
    ensures Get(k'.val, User(a)) == 3 && Semaphores.Queue(k', User(a)) == []
  {
    assert Charged(k.pcb, {SECOND}, User(a)) == {SECOND};
    assert Without([SECOND], {SECOND}) == [];
  }

  // ---------------------------------------------------------------- a process lost

  /** The second process, never blocked, dies on CPU 1 while the third is ready: it is displaced. */
  lemma DeathLosesProcessInReach(st: PState, pcb: seq<Pcb>, val: map<Key, int>, a: Address)
    returns (ks: seq<K>, es: seq<Event>, ws: seq<Point>)
    requires |pcb| == MAXPROC && (forall p :: 0 <= p < MAXPROC ==> pcb[p].parent == None) && Get(val, User(a)) == 0
    ensures FromBoot(ks, es) && |ks| == |es| + 1 && Shape(ks[|es|]) && ks[|es|].running[1] == Some(SECOND)
    ensures Path(1, ws) && ws[0] == Point(ks[|es|], [SECOND]) && Ended(ws)
    ensures Inv(Last(ws).k) && !Inv(Dispatch(Last(ws).k, 1))
  {
    hide Inv, FromBoot, Guarded, Subtree, Path, Ended;
    ks, es := StartRun(st, pcb, val, a);
    RunAtLeast(ks, es);
    var k := ks[|es|];
    var k1 := Create(k, 0, st);
    Extend(ks, es, CreateE(0, st), k1);
    var k2 := Dispatch(k1, 1);
    Extend(ks + [k1], es + [CreateE(0, st)], SchedE(1), k2);
    ks, es := ks + [k1] + [k2], es + [CreateE(0, st)] + [SchedE(1)];
    NeverBlocked(k2);
    ws := TerminationEnds(k2, 1, SECOND);
    TerminationSoundExactlyWhenGuarded(k2, 1, SECOND, ws);
    DieExactlyWhenBlockedBefore(k2, 1, ws);
  }

  lemma NeverBlocked(k: K)
    requires Inv(k) && Bounded(k) && k.running[1] == Some(SECOND) && k.children[SECOND] == []
    requires k.pcb[SECOND].semAdd == None && k.ready == [THIRD]
    ensures Rooted(k, 1, SECOND) && Guarded(k, 1, Subtree(k, SECOND))
    ensures THIRD in k.ready && THIRD !in Subtree(k, SECOND)
  {
    hide Inv, Subtree;
    RunningNotReady(k, 1);
    LeafSubtree(k, SECOND);
  }

  // ---------------------------------------------------------------- a saved state

  /** A process can wait for a device, be woken by its interrupt and resume: the run that
    * `Resume.ResumesWithStatus` speaks of exists. */
  lemma ResumptionInReach(st: PState, pcb: seq<Pcb>, val: map<Key, int>, s: PState, status: nat)
    returns (ks: seq<K>, es: seq<Event>)
    requires |pcb| == MAXPROC && forall p :: 0 <= p < MAXPROC ==> pcb[p].parent == None
    ensures FromBoot(ks, es) && |es| == 4 && |ks| == 5 && Devices.DeviceRun(ks, es, 0) && Devices.Calls(es[1], 0)
    ensures Resume.Leaves(ks[1], es[1], ks[2], FIRST, s) && Resume.Aside(ks, es, FIRST, 1, 3)
    ensures Resume.Dispatched(es[3], ks[4], FIRST) && FIRST < |ks[3].pcb| && ks[3].pcb[FIRST].ps == s.(a0 := status)
  {
    hide Inv, Block, Signal, Next, Bounded, DoIO, Interrupt, FindDeviceIndex;
    var addr := START_DEVREG + 4;
    var k0 := Boot(st, pcb, val);
    BootInv(st, pcb, val);
    InvBounded(k0);
    var k1 := Dispatch(k0, 0);
    FirstDispatch(k0, FIRST);
    FirstCall(k1, addr, s, status);
    var (k2, e0, e1) := (DoIO(k1, 0, addr, s), SchedE(0), DoIOE(0, addr, s));
    var (k3, e2) := (Interrupt(k2, 3, 0, status, 0), InterruptE(0, 3, 0, status, 0));
    var k4 := Dispatch(k3, 0);
    FirstDispatch(k3, FIRST);
    ks, es := [k0], [];
    assert FromBoot(ks, es);
    Extend(ks, es, e0, k1);
    ks, es := ks + [k1], es + [e0];
    Extend(ks, es, e1, k2);
    ks, es := ks + [k2], es + [e1];
    Extend(ks, es, e2, k3);
    ks, es := ks + [k3], es + [e2];
    Extend(ks, es, e0, k4);
    ks, es := ks + [k4], es + [e0];
    assert ks == [k0, k1, k2, k3, k4] && es == [e0, e1, e2, e0];
    FirstCommand(addr);
  }

  lemma FirstCommand(addr: nat)
    requires addr == START_DEVREG + 4
    ensures HasSemaphore(addr) && IndexOf(addr) == 0
    ensures Devices.IsSubDevice(Devices.Plain(3, 0)) && Devices.CommandAddress(Devices.Plain(3, 0)) == addr
  {
  }

  lemma FirstDispatch(k: K, p: nat)
    requires Bounded(k) && Inv(k) && k.ready == [p] && k.running[0] == None
    ensures var k1 := Dispatch(k, 0);
      && Next(k, SchedE(0), k1) && Bounded(k1) && Shape(k1) && Inv(k1) && k1.ready == [] && k1.blocked == k.blocked
      && k1.running[0] == Some(p) && k1.free == k.free && k1.pcb == k.pcb
  {
    hide Inv;
    DispatchStepKeeps(k, 0);
    InvBounded(Dispatch(k, 0));
  }

  /** The call, and the interrupt that answers it. */
  lemma FirstCall(k: K, addr: nat, s: PState, status: nat)
    requires Bounded(k) && Inv(k) && k.running[0] == Some(FIRST) && k.ready == [] && k.blocked == map[]
    requires addr == START_DEVREG + 4
    ensures Busy(k, 0) && HasSemaphore(addr)
    ensures var k1 := DoIO(k, 0, addr, s);
      && Next(k, DoIOE(0, addr, s), k1) && Bounded(k1) && Shape(k1) && k1.running[0] == None && k1.free == k.free
      && var k2 := Interrupt(k1, 3, 0, status, 0);
      && Next(k1, InterruptE(0, 3, 0, status, 0), k2) && Bounded(k2) && Shape(k2) && Inv(k2)
      && k2.ready == [FIRST] && k2.running[0] == None && k2.free == k.free
      && k2.pcb[FIRST].ps == s.(a0 := status)
  {
    hide Inv, DoIO, Interrupt, FindDeviceIndex, IndexOf;
    FirstCommand(addr);
    DoIOKeeps(k, 0, addr, s);
    Sections.DoIOIs(k, 0, addr, s);
    var k1 := DoIO(k, 0, addr, s);
    InvBounded(k1);
    InterruptKeeps(k1, 3, 0, status, 0);
    InvBounded(Interrupt(k1, 3, 0, status, 0));
    Devices.InterruptSignals(k1, 3, 0, status, 0);
    assert Semaphores.Queue(k1, Dev(0)) == [FIRST];
  }
}
