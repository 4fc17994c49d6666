/** phase2/exceptions.c: the system calls, as methods on the kernel's tables.  Each refines one
  * event of the abstract nucleus. */
module ExceptionsC {
  import opened KernelTypes
  import opened KernelState
  import opened KernelStore
  import opened PcbC
  import AslC
  import KernelInv
  import KernelRun
  import Sections

  /** What the handlers find on entry. */
  ghost predicate Entry(st: Store)
    reads st, st.mem, st.pcbTable, st.semdKey, st.current
  {
    st.Valid() && KernelInv.Inv(st.k) && Bounded(st.k)
  }

  lemma ReadyAfter(st: Store, k: K, e: Event)
    requires KernelInv.Inv(k) && Bounded(k) && st.Valid() && Next(k, e, st.k)
    ensures Entry(st)
  {
    KernelRun.StepKeepsInv(k, e, st.k);
    KernelInv.InvBounded(st.k);
  }

  /** A process that is running is on no queue. */
  lemma RunningNowhere(k: K, cpu: nat)
    requires KernelInv.Inv(k) && cpu < NCPU
    ensures Shape(k)
    ensures k.running[cpu].Some? ==> k.running[cpu].value < MAXPROC && Nowhere(k, k.running[cpu].value)
  {
    var loc: seq<KernelInv.Place> :| KernelInv.InvAt(k, loc);
    if k.running[cpu].Some? {
      forall key | key in k.blocked ensures k.running[cpu].value !in k.blocked[key] {
        assert KernelInv.Holds(k.blocked[key], loc, KernelInv.InQueue(key));
      }
    }
  }

  /** The head of a semaphore queue, once removed, is on no queue. */
  lemma WokenNowhere(k: K, key: Key)
    requires KernelInv.Inv(k) && key in k.blocked
    ensures k.blocked[key] != [] && k.blocked[key][0] < MAXPROC
    ensures Nowhere(k.(blocked := Deq(k.blocked, key)), k.blocked[key][0])
  {
    var loc: seq<KernelInv.Place> :| KernelInv.InvAt(k, loc);
    var q := k.blocked[key];
    assert KernelInv.Holds(q, loc, KernelInv.InQueue(key));
    KernelInv.HoldsPop(q, loc, KernelInv.InQueue(key), KernelInv.InReady);
    forall key' | key' in Deq(k.blocked, key) ensures q[0] !in Deq(k.blocked, key)[key'] {
      if key' != key {
        assert KernelInv.Holds(k.blocked[key'], loc, KernelInv.InQueue(key'));
      }
    }
  }

  // ---------------------------------------------------------------- parts of the handlers

  /** (*semAdd) += n */
  method AddWord(st: Store, key: Key, n: int)
    requires st.Valid()
    modifies st`k, st`word
    ensures st.Valid() && st.k == Add(old(st.k), key, n)
  {
    hide Rep;
    RepBasics(st.k, st.asl, st.semdFree, st.semdKey[..], st.mem.lists);
    st.word := st.word[key := Get(st.word, key) + n];
    st.k := Add(st.k, key, n);
    SameLists(old(st.k), st.k, st.asl, st.semdFree, st.semdKey[..], st.mem.lists);
  }

  lemma SameLists(k: K, k': K, asl: seq<nat>, semdFree: seq<nat>, keys: seq<Key>, lists: Lists)
    requires Rep(k, asl, semdFree, keys, lists)
    requires Shape(k') && k'.free == k.free && k'.ready == k.ready
    requires k'.blocked == k.blocked && k'.children == k.children
    ensures Rep(k', asl, semdFree, keys, lists)
  {
  }

  /** current->p_s = *state */
  method SaveState(st: Store, p: nat, s: PState)
    requires st.Valid() && p < MAXPROC
    modifies st`k, st.pcbTable
    ensures st.Valid() && st.k == old(st.k).(pcb := old(st.k).pcb[p := old(st.k).pcb[p].(ps := s)])
  {
    hide Rep;
    RepBasics(st.k, st.asl, st.semdFree, st.semdKey[..], st.mem.lists);
    st.pcbTable[p] := st.pcbTable[p].(ps := s);
    st.k := st.k.(pcb := st.k.pcb[p := st.k.pcb[p].(ps := s)]);
    SameLists(old(st.k), st.k, st.asl, st.semdFree, st.semdKey[..], st.mem.lists);
  }

  /** current_process[cpu] = p */
  method SetCurrent(st: Store, cpu: nat, p: Option<nat>)
    requires st.Valid() && cpu < NCPU
    modifies st`k, st.current
    ensures st.Valid() && st.k == old(st.k).(running := old(st.k).running[cpu := p])
  {
    hide Rep;
    RepBasics(st.k, st.asl, st.semdFree, st.semdKey[..], st.mem.lists);
    st.current[cpu] := p;
    st.k := st.k.(running := st.k.running[cpu := p]);
    SameLists(old(st.k), st.k, st.asl, st.semdFree, st.semdKey[..], st.mem.lists);
  }

  method AddCount(st: Store, n: int)
    requires st.Valid()
    modifies st`k, st`processCount
    ensures st.Valid() && st.k == old(st.k).(count := old(st.k).count + n)
  {
    hide Rep;
    RepBasics(st.k, st.asl, st.semdFree, st.semdKey[..], st.mem.lists);
    st.processCount := st.processCount + n;
    st.k := st.k.(count := st.k.count + n);
    SameLists(old(st.k), st.k, st.asl, st.semdFree, st.semdKey[..], st.mem.lists);
  }

  /** The blocking branch of PASSEREN, VERHOGEN and DOIO; the result of insertBlocked is ignored. */
  method BlockCurrent(st: Store, cpu: nat, semAdd: Key, s: PState)
    requires st.Valid() && cpu < NCPU && Busy(st.k, cpu) && st.k.running[cpu].value < MAXPROC
    requires Nowhere(st.k, st.k.running[cpu].value)
    modifies st.Parts()
    ensures st.Valid() && st.k == Block(old(st.k), cpu, semAdd, s)
  {
    hide Rep, ListX.WellFormed;
    RepBasics(st.k, st.asl, st.semdFree, st.semdKey[..], st.mem.lists);
    var current := st.current[cpu].value;
    var full := AslC.InsertBlocked(st, semAdd, current);
    SaveState(st, current, s);
    SetCurrent(st, cpu, None);
  }

  /** removeBlocked, and insertProcQ of the PCB found. */
  method WakeOne(st: Store, semAdd: Key) returns (unblocked: Option<nat>)
    requires st.Valid() && KernelInv.Inv(st.k)
    modifies st`k, st`asl, st`semdFree, st.mem
    ensures st.Valid()
    ensures semAdd in old(st.k).blocked ==> old(st.k).blocked[semAdd] != []
    ensures st.k == Wake(old(st.k), semAdd)
    ensures unblocked == if semAdd in old(st.k).blocked then Some(old(st.k).blocked[semAdd][0]) else None
  {
    hide Rep, ListX.WellFormed, KernelInv.Inv;
    ghost var k0 := st.k;
    unblocked := AslC.RemoveBlocked(st, semAdd);
    if unblocked.Some? {
      WokenNowhere(k0, semAdd);
      InsertReady(st, unblocked.value);
    }
  }

  lemma AddInv(k: K, key: Key, n: int)
    requires KernelInv.Inv(k)
    ensures KernelInv.Inv(Add(k, key, n))
  {
    hide KernelInv.InvAt;
    var loc: seq<KernelInv.Place> :| KernelInv.InvAt(k, loc);
    KernelInv.AddKeeps(k, loc, key, n);
  }

  // ---------------------------------------------------------------- the system calls

  lemma CreatePre(k: K, cpu: nat)
    requires KernelInv.Inv(k) && Bounded(k) && cpu < NCPU && k.free != []
    ensures var p := k.free[0];
            && p < MAXPROC && Nowhere(k.(free := k.free[1..]), p)
            && (forall q: nat {:trigger k.children[q]} :: q < MAXPROC ==> p !in k.children[q])
            && (k.running[cpu].Some? ==> k.running[cpu].value < MAXPROC && k.running[cpu].value !in k.free[1..])
  {
    assert k.free[0] in k.free;
    FreeIsBare(k, k.free[0]);
    RunningNowhere(k, cpu);
    assert forall x :: x in k.free[1..] ==> x in k.free;
  }

  /** CREATEPROCESS: the new process' pid, or -1 when no PCB is free. */
  method CreateProcess(st: Store, cpu: nat, newState: PState) returns (reply: int)
    requires Entry(st) && cpu < NCPU && st.k.running[cpu].Some?
    modifies st.Parts()
    ensures Entry(st) && Next(old(st.k), CreateE(cpu, newState), st.k)
    ensures reply == if old(st.k).free == [] then -1 else old(st.k).nextPid
    ensures old(st.k).free == [] ==> st.k == old(st.k)
    ensures old(st.k).free != [] ==> Sections.CreateSpec(old(st.k), cpu, newState, reply, st.k)
  {
    hide Rep, ListX.WellFormed, KernelInv.Inv, Bounded, Sections.CreateSpec;
    ghost var k0 := st.k;
    RunningNowhere(k0, cpu);
    var newPcb := AllocPcb(st);
    if newPcb.None? {
      reply := -1;
    } else {
      var p := newPcb.value;
      CreatePre(k0, cpu);
      SaveState(st, p, newState);
      var parent := st.current[cpu];
      if parent.Some? {
        InsertChild(st, parent.value, p);
      }
      InsertReady(st, p);
      AddCount(st, 1);
      reply := st.pcbTable[p].pid;
      assert st.k == Create(k0, cpu, newState);
      Sections.CreateIs(k0, cpu, newState);
    }
    ReadyAfter(st, k0, CreateE(cpu, newState));
  }

  /** PASSEREN */
  method Passeren(st: Store, cpu: nat, semAdd: Key, s: PState)
    requires Entry(st) && cpu < NCPU && st.k.running[cpu].Some?
    modifies st.Parts()
    ensures Entry(st) && Next(old(st.k), PE(cpu, semAdd, s), st.k)
    ensures Sections.PSpec(old(st.k), cpu, semAdd, s, st.k)
  {
    hide Rep, ListX.WellFormed, KernelInv.Inv, Bounded, Block, Wake, Sections.PSpec;
    ghost var k0 := st.k;
    RunningNowhere(k0, cpu);
    AddInv(k0, semAdd, -1);
    AddWord(st, semAdd, -1);
    if Get(st.word, semAdd) < 0 {
      BlockCurrent(st, cpu, semAdd, s);
    } else if Get(st.word, semAdd) >= 1 {
      var unblocked := WakeOne(st, semAdd);
    }
    assert st.k == P(k0, cpu, semAdd, s);
    Sections.PIs(k0, cpu, semAdd, s);
    ReadyAfter(st, k0, PE(cpu, semAdd, s));
  }

  /** VERHOGEN */
  method Verhogen(st: Store, cpu: nat, semAdd: Key, s: PState)
    requires Entry(st) && cpu < NCPU && st.k.running[cpu].Some?
    modifies st.Parts()
    ensures Entry(st) && Next(old(st.k), VE(cpu, semAdd, s), st.k)
    ensures Sections.VSpec(old(st.k), cpu, semAdd, s, st.k)
  {
    hide Rep, ListX.WellFormed, KernelInv.Inv, Bounded, Block, Wake, Sections.VSpec;
    ghost var k0 := st.k;
    RunningNowhere(k0, cpu);
    AddInv(k0, semAdd, 1);
    AddWord(st, semAdd, 1);
    if Get(st.word, semAdd) > 1 {
      BlockCurrent(st, cpu, semAdd, s);
    } else if Get(st.word, semAdd) <= 0 {
      var unblocked := WakeOne(st, semAdd);
    }
    assert st.k == V(k0, cpu, semAdd, s);
    Sections.VIs(k0, cpu, semAdd, s);
    ReadyAfter(st, k0, VE(cpu, semAdd, s));
  }

  /** DOIO: -1 at once for a NULL command address, otherwise the caller blocks on its device. */
  method DoIo(st: Store, cpu: nat, commandAddress: nat, s: PState) returns (reply: Option<int>)
    requires Entry(st) && cpu < NCPU && st.k.running[cpu].Some?
    requires commandAddress == 0 || HasSemaphore(commandAddress)
    modifies st.Parts()
    ensures Entry(st)
    ensures commandAddress == 0 ==> reply == Some(-1) && st.k == old(st.k)
    ensures commandAddress != 0 ==> reply == None && Next(old(st.k), DoIOE(cpu, commandAddress, s), st.k)
    ensures commandAddress != 0 ==> Sections.DoIOSpec(old(st.k), cpu, commandAddress, s, st.k)
  {
    hide Rep, ListX.WellFormed, KernelInv.Inv, Bounded, Block, Sections.DoIOSpec;
    if commandAddress == 0 {
      return Some(-1);
    }
    ghost var k0 := st.k;
    RunningNowhere(k0, cpu);
    var devIndex := FindDeviceIndex(commandAddress);
    if devIndex < 0 {
      return Some(-1);
    }
    AddWord(st, Dev(devIndex), -1);
    BlockCurrent(st, cpu, Dev(devIndex), s);
    assert st.k == DoIO(k0, cpu, commandAddress, s);
    Sections.DoIOIs(k0, cpu, commandAddress, s);
    ReadyAfter(st, k0, DoIOE(cpu, commandAddress, s));
    return None;
  }

  /** CLOCKWAIT: the PANIC is unreachable. */
  method ClockWaitCall(st: Store, cpu: nat, s: PState) returns (panic: bool)
    requires Entry(st) && cpu < NCPU && st.k.running[cpu].Some?
    modifies st.Parts()
    ensures Entry(st) && Next(old(st.k), ClockWaitE(cpu, s), st.k)
    ensures !panic && Sections.ClockWaitSpec(old(st.k), cpu, s, st.k)
  {
    hide Rep, ListX.WellFormed, KernelInv.Inv, Bounded, Sections.ClockWaitSpec;
    ghost var k0 := st.k;
    RunningNowhere(k0, cpu);
    KernelInv.InsertBlockedNeverFails(k0, cpu, Dev(PSEUDOCLOCK));
    var cur := st.current[cpu].value;
    panic := AslC.InsertBlocked(st, Dev(PSEUDOCLOCK), cur);
    if panic {
      return;
    }
    SaveState(st, cur, s);
    SetCurrent(st, cpu, None);
    assert st.k == ClockWait(k0, cpu, s);
    Sections.ClockWaitIs(k0, cpu, s);
    ReadyAfter(st, k0, ClockWaitE(cpu, s));
  }
}
