/** phase2/interrupts.c and phase2/scheduler.c. */
module InterruptsC {
  import opened KernelTypes
  import opened KernelState
  import opened KernelStore
  import opened PcbC
  import opened ExceptionsC
  import ListX
  import KernelInv
  import KernelRun
  import Devices
  import Exactness
  import Sections
  import TerminateC

  /** pltHandler: the time slice is over. */
  method PltHandler(st: Store, cpu: nat, s: PState)
    requires Entry(st) && cpu < NCPU && st.k.running[cpu].Some?
    modifies st.Parts()
    ensures Entry(st) && Next(old(st.k), PltE(cpu, s), st.k)
    ensures Sections.PltSpec(old(st.k), cpu, s, st.k)
  {
    hide Rep, ListX.WellFormed, KernelInv.Inv, Bounded, Sections.PltSpec;
    ghost var k0 := st.k;
    RunningNowhere(k0, cpu);
    RepBasics(st.k, st.asl, st.semdFree, st.semdKey[..], st.mem.lists);
    var curProc := st.current[cpu].value;
    SaveState(st, curProc, s);
    InsertReady(st, curProc);
    SetCurrent(st, cpu, None);
    assert st.k == Plt(k0, cpu, s);
    Sections.PltIs(k0, cpu, s);
    ReadyAfter(st, k0, PltE(cpu, s));
  }

  lemma WakeInv(k: K, key: Key)
    requires KernelInv.Inv(k) && (key in k.blocked ==> k.blocked[key] != [])
    ensures KernelInv.Inv(Wake(k, key))
    ensures key !in k.blocked ==> Wake(k, key) == k
  {
    hide KernelInv.InvAt;
    var loc: seq<KernelInv.Place> :| KernelInv.InvAt(k, loc);
    var l := KernelInv.WakeKeeps(k, loc, key);
  }

  lemma QueueNonEmpty(k: K, key: Key)
    requires Bounded(k)
    ensures key in k.blocked ==> k.blocked[key] != []
  {
  }

  /** After i wake-ups of the queue q of one key. */
  ghost function Drained(k: K, key: Key, q: seq<nat>, i: nat): K
    requires i <= |q|
  {
    k.(blocked := if i == |q| then k.blocked - {key} else k.blocked[key := q[i..]], ready := k.ready + q[..i])
  }

  lemma DrainStep(k: K, key: Key, q: seq<nat>, i: nat)
    requires i < |q|
    ensures key in Drained(k, key, q, i).blocked && Drained(k, key, q, i).blocked[key] == q[i..]
    ensures Wake(Drained(k, key, q, i), key) == Drained(k, key, q, i + 1)
  {
    assert q[i..][1..] == q[i + 1..];
    assert q[..i + 1] == q[..i] + [q[i]];
    assert k.ready + q[..i] + [q[i]] == k.ready + q[..i + 1];
    assert k.blocked[key := q[i..]] - {key} == k.blocked - {key};
  }

  lemma DrainEnds(k: K, key: Key, q: seq<nat>)
    requires q == if key in k.blocked then k.blocked[key] else []
    requires key in k.blocked ==> q != []
    ensures Drained(k, key, q, 0) == k
    ensures key == Dev(PSEUDOCLOCK) ==> Drained(k, key, q, |q|) == Tick(k)
  {
    assert k.ready + q[..0] == k.ready && k.ready + q[..|q|] == k.ready + q && q[0..] == q;
    assert key !in k.blocked ==> k.blocked - {key} == k.blocked;
    assert key in k.blocked ==> k.blocked[key := q] == k.blocked;
  }

  lemma DrainKnown(k: K, key: Key, q: seq<nat>, i: nat)
    requires i <= |q|
    ensures key in Drained(k, key, q, i).blocked <==> i < |q|
  {
  }

  /** unblockClockPCBs: the whole queue of the pseudo-clock becomes ready, in its order. */
  method UnblockClockPcbs(st: Store, cpu: nat)
    requires Entry(st) && cpu < NCPU
    modifies st`k, st`asl, st`semdFree, st.mem
    ensures Entry(st) && Next(old(st.k), TickE(cpu), st.k)
    ensures Sections.TickSpec(old(st.k), st.k)
  {
    hide Rep, ListX.WellFormed, KernelInv.Inv, Bounded, Wake, Drained, Tick, Sections.TickSpec;
    ghost var k0, key := st.k, Dev(PSEUDOCLOCK);
    RepBasics(st.k, st.asl, st.semdFree, st.semdKey[..], st.mem.lists);
    ghost var q := if key in k0.blocked then k0.blocked[key] else [];
    ghost var i := 0;
    QueueNonEmpty(k0, key);
    DrainEnds(k0, key, q);
    var more := true;
    while more
      invariant st.Valid() && KernelInv.Inv(st.k)
      invariant 0 <= i <= |q| && st.k == Drained(k0, key, q, i)
      invariant !more ==> i == |q|
      decreases |q| - i, more
    {
      ghost var k := st.k;
      var pcb := WakeOne(st, Dev(PSEUDOCLOCK));
      WakeInv(k, key);
      DrainKnown(k0, key, q, i);
      more := pcb.Some?;
      if more {
        DrainStep(k0, key, q, i);
        i := i + 1;
      }
    }
    ReadyAfter(st, k0, TickE(cpu));
    Sections.TickIs(k0);
  }

  /** intHandler, given the device and its status registers. */
  method IntHandler(st: Store, cpu: nat, intlineNo: nat, devNo: nat, reg0: nat, reg2: nat)
    requires Entry(st) && cpu < NCPU && 3 <= intlineNo <= 7 && devNo < 8
    modifies st.Parts()
    ensures Entry(st) && Next(old(st.k), InterruptE(cpu, intlineNo, devNo, reg0, reg2), st.k)
    ensures Devices.InterruptSpec(old(st.k), intlineNo, devNo, reg0, reg2, st.k)
  {
    hide Rep, ListX.WellFormed, KernelInv.Inv, Bounded, Wake, Devices.InterruptSpec;
    ghost var k0 := st.k;
    RepBasics(st.k, st.asl, st.semdFree, st.semdKey[..], st.mem.lists);
    var devAddrBase := DevAddrBase(intlineNo, devNo);
    var status := 0;
    var devSemaphore: Option<Key> := None;
    if intlineNo == 7 {
      if 1 < reg2 % 0x100 <= 5 {
        status := reg2;
        devSemaphore := Some(Dev(FindDeviceIndex(devAddrBase + 0xC)));
      } else if 1 < reg0 % 0x100 <= 5 {
        status := reg0;
        devSemaphore := Some(Dev(FindDeviceIndex(devAddrBase + 0x4)));
      }
    } else {
      status := reg0;
      devSemaphore := Some(Dev(FindDeviceIndex(devAddrBase)));
    }
    if devSemaphore.Some? {
      SignalDevice(st, devSemaphore.value, status);
    }
    assert st.k == Interrupt(k0, intlineNo, devNo, reg0, reg2);
    Devices.InterruptSignals(k0, intlineNo, devNo, reg0, reg2);
    ReadyAfter(st, k0, InterruptE(cpu, intlineNo, devNo, reg0, reg2));
  }

  /** The V on a device semaphore, and the status handed to the process it wakes. */
  method SignalDevice(st: Store, devSemaphore: Key, status: nat)
    requires Entry(st)
    modifies st.Parts()
    ensures st.Valid() && st.k == Signal(old(st.k), devSemaphore, status)
  {
    hide Rep, ListX.WellFormed, KernelInv.Inv;
    ghost var k0 := st.k;
    RepBasics(st.k, st.asl, st.semdFree, st.semdKey[..], st.mem.lists);
    AddInv(k0, devSemaphore, 1);
    AddWord(st, devSemaphore, 1);
    var unblocked := WakeOne(st, devSemaphore);
    if unblocked.Some? {
      assert k0.blocked[devSemaphore][0] in k0.blocked[devSemaphore];
      SaveState(st, unblocked.value, st.pcbTable[unblocked.value].ps.(a0 := status));
    }
  }

  // ---------------------------------------------------------------- the scheduler

  datatype Outcome = Halt | Wait | RunProcess(next: nat, state: PState)

  /** Scheduler.  The tables stay sound exactly when the CPU runs nothing or nothing is ready. */
  method Scheduler(st: Store, cpu: nat) returns (r: Outcome)
    requires Entry(st) && cpu < NCPU
    modifies st.Parts()
    ensures st.Valid() && st.k == Dispatch(old(st.k), cpu) && Sections.SchedSpec(old(st.k), cpu, st.k)
    ensures Entry(st) <==> old(st.k).running[cpu].None? || old(st.k).ready == []
    ensures old(st.k).running[cpu].None? ==> Next(old(st.k), SchedE(cpu), st.k)
    ensures r.Halt? <==> KernelRun.Halts(old(st.k))
    ensures r.Wait? <==> old(st.k).ready == [] && old(st.k).count != 0
    ensures r.RunProcess? ==>
      && old(st.k).ready != [] && r.next == old(st.k).ready[0] && r.next < MAXPROC
      && r.state == old(st.k).pcb[r.next].ps && st.k.running[cpu] == Some(r.next)
  {
    hide Rep, ListX.WellFormed, KernelInv.Inv, Sections.SchedSpec;
    ghost var k0 := st.k;
    RepBasics(st.k, st.asl, st.semdFree, st.semdKey[..], st.mem.lists);
    var next := RemoveReady(st);
    if next.None? {
      r := if st.processCount == 0 then Halt else Wait;
    } else {
      assert k0.ready[0] in k0.ready;
      SetCurrent(st, cpu, next);
      r := RunProcess(next.value, st.pcbTable[next.value].ps);
    }
    assert st.k == Dispatch(k0, cpu);
    Sections.SchedIs(k0, cpu);
    Exactness.DispatchExactlyWhenIdle(k0, cpu);
    if KernelInv.Inv(st.k) {
      KernelInv.InvBounded(st.k);
    }
  }

  /** passUpordie, for a running process without support structure whose subtree satisfies the guard. */
  method Die(st: Store, cpu: nat) returns (r: Outcome)
    requires Entry(st) && cpu < NCPU && st.k.running[cpu].Some?
    requires Guarded(st.k, cpu, Subtree(st.k, st.k.running[cpu].value))
    modifies st.Parts()
    ensures st.Valid()
    ensures Entry(st) <==>
      var p := old(st.k).running[cpu].value;
      p < MAXPROC && (old(st.k).pcb[p].semAdd.Some? || forall q :: q in old(st.k).ready ==> q in Subtree(old(st.k), p))
    ensures exists k1 :: Next(old(st.k), TermE(cpu, 0), k1) && Sections.SchedSpec(k1, cpu, st.k)
  {
    hide Rep, ListX.WellFormed, KernelInv.Inv, Guarded, Subtree, Dispatch, Removed, Detached, Sections.SchedSpec;
    ghost var k0 := st.k;
    TerminateC.TermProc(st, cpu, 0);
    ghost var k1 := st.k;
    Exactness.DieAfterTermination(k0, cpu, k1);
    r := Scheduler(st, cpu);
    if KernelInv.Inv(st.k) {
      KernelInv.InvBounded(st.k);
    }
  }

  /** On HALT all PCBs and all semaphore descriptors are linked on their free lists. */
  lemma HaltFreesEverything(st: Store)
    requires Entry(st) && KernelRun.Halts(st.k)
    ensures st.asl == [] && st.k.blocked == map[]
    ensures SemdFreeH in st.mem.lists && st.mem.lists[SemdFreeH] == SLinks(st.semdFree)
    ensures PcbFreeH in st.mem.lists && st.mem.lists[PcbFreeH] == PLists(st.k.free)
    ensures forall i :: 0 <= i < MAXPROC ==> i in st.semdFree && i in st.k.free
    ensures forall c :: 0 <= c < NCPU ==> st.current[c] == None
  {
    hide ListX.WellFormed, KernelInv.Inv;
    KernelRun.HaltMeansAllFree(st.k);
    RepBasics(st.k, st.asl, st.semdFree, st.semdKey[..], st.mem.lists);
    DescriptorsShared(st);
    KernelRun.FullRange(st.semdFree, MAXPROC);
    forall c | 0 <= c < NCPU ensures st.current[c] == None {
      assert st.current[..][c] == st.k.running[c];
    }
  }

  /** Every descriptor is on exactly one of the two lists, and one is active for every semaphore with
    * waiters. */
  lemma DescriptorsShared(st: Store)
    requires st.Valid()
    ensures ListX.NoDup(st.semdFree) && ListX.NoDup(st.asl)
    ensures forall d :: d in st.asl ==> d !in st.semdFree
    ensures |st.asl| + |st.semdFree| == MAXPROC && |st.asl| == |st.k.blocked|
  {
    RepBasics(st.k, st.asl, st.semdFree, st.semdKey[..], st.mem.lists);
    DescriptorsNoDup(st.semdFree);
    DescriptorsNoDup(st.asl);
    ActiveCount(st.k.blocked, st.asl, st.semdFree, st.semdKey[..], st.mem.lists);
  }
}
