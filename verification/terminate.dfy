/** phase2/exceptions.c: TERMPROCESS (termProc, terminateSubtree). */
module TerminateC {
  import opened KernelTypes
  import opened KernelState
  import opened KernelStore
  import opened PcbC
  import opened ExceptionsC
  import AslC
  import Exactness
  import KernelInv
  import KernelTerm
  import opened KernelWalk
  import KernelRun
  import ListX

  // ---------------------------------------------------------------- the code

  /** A ready process that carries the address of a semaphore it was woken from. */
  ghost predicate Stale(k: K, p: nat)
    requires p < |k.pcb|
  {
    k.pcb[p].semAdd.Some? && p in k.ready
  }

  /** outBlocked and the signal, or outProcQ; false when the process is on no queue. */
  method LeaveQueue(st: Store, cpu: nat, process: nat) returns (left: bool)
    requires Entry(st) && process < MAXPROC && process !in st.k.free
    modifies st.Parts()
    ensures st.Valid()
    ensures left <==> old(st.k).pcb[process].semAdd.Some? || process in old(st.k).ready
    ensures st.k == if left then KernelTerm.LeaveQueues(old(st.k), process) else old(st.k)
    ensures Unblocked(st.k, process) || !left
    ensures process in st.k.ready <==> Stale(old(st.k), process)
  {
    hide Rep, ListX.WellFormed, KernelInv.Inv, Bounded, Without, KernelTerm.OutBlocked;
    RepBasics(st.k, st.asl, st.semdFree, st.semdKey[..], st.mem.lists);
    ReapUnblocks(st.k, process);
    if st.pcbTable[process].semAdd != None {
      var out := AslC.OutBlocked(st, process);
      AddWord(st, st.pcbTable[process].semAdd.value, 1);
      left := true;
    } else {
      left := OutReady(st, process);
    }
  }

  /** The part of terminateSubtree after the loop.  A ready process with an old semaphore address goes
    * down the branch for blocked ones and is freed while still linked on the ready queue: the links
    * then mean nothing. */
  method ReapProcess(st: Store, cpu: nat, process: nat)
    requires Entry(st) && cpu < NCPU && process < MAXPROC && process !in st.k.free
    requires st.k.pcb[process].parent.Some? ==>
      && st.k.pcb[process].parent.value < MAXPROC && st.k.pcb[process].parent.value !in st.k.free
      && process in st.k.children[st.k.pcb[process].parent.value]
    modifies st.Parts()
    ensures !Stale(old(st.k), process) ==> st.Valid() && st.k == KernelTerm.Reap(old(st.k), cpu, process)
    ensures Stale(old(st.k), process) ==> ListX.Meaningless(st.mem.next, st.mem.prev, ReadyQ, PcbFreeH)
  {
    hide Rep, ListX.WellFormed, KernelInv.Inv, Bounded, Without, KernelTerm.OutBlocked;
    RepBasics(st.k, st.asl, st.semdFree, st.semdKey[..], st.mem.lists);
    var left := LeaveQueue(st, cpu, process);
    if !left {
      return;
    }
    AddCount(st, -1);
    if st.pcbTable[process].parent != None {
      var parent := OutChild(st, process);
    }
    if st.current[cpu] == Some(process) {
      SetCurrent(st, cpu, None);
    }
    FreePcb(st, process);
  }

  lemma ReapUnblocks(k: K, p: nat)
    requires KernelInv.Inv(k) && Shape(k) && p < MAXPROC && p !in k.free
    ensures k.pcb[p].semAdd.Some? ==>
      Unblocked(k.(blocked := KernelTerm.OutBlocked(k.blocked, k.pcb[p].semAdd.value, p)), p)
    ensures k.pcb[p].semAdd.None? ==> Unblocked(k, p)
    ensures p !in Without(k.ready, {p})
  {
    hide KernelInv.Placed, KernelInv.TreeOk, KernelInv.PidsOk;
    var loc: seq<KernelInv.Place> :| KernelInv.InvAt(k, loc);
    KernelTerm.WithoutMembers(k.ready, {p});
    if k.pcb[p].semAdd.Some? && k.pcb[p].semAdd.value in k.blocked {
      KernelTerm.WithoutMembers(k.blocked[k.pcb[p].semAdd.value], {p});
    }
  }

  lemma NotStale(k: K, cpu: nat, p: nat)
    requires Shape(k) && p < MAXPROC && Guarded(k, cpu, {p})
    ensures !Stale(k, p)
  {
  }

  /** terminateSubtree */
  method TerminateSubtree(st: Store, cpu: nat, process: nat)
    requires Entry(st) && Doomed(st.k, cpu, process)
    modifies st.Parts()
    ensures st.Valid()
    ensures Removed(old(st.k), cpu, Subtree(old(st.k), process), Detached(old(st.k), process), st.k)
    decreases st.k.nextPid - st.k.pcb[process].pid
  {
    hide Rep, ListX.WellFormed, KernelInv.Inv, Bounded, Removed, Guarded, Subtree, KernelTerm.Branches;
    ghost var k0 := st.k;
    ghost var i := 0;
    RepBasics(k0, st.asl, st.semdFree, st.semdKey[..], st.mem.lists);
    PidBound(k0, process);
    PartlyStart(k0, cpu, process);
    var empty := EmptyChild(st, process);
    while !empty
      invariant st.Valid() && i <= |k0.children[process]|
      invariant Partly(k0, cpu, process, i, st.k)
      invariant Shape(st.k) && (empty <==> st.k.children[process] == [])
      decreases |k0.children[process]| - i
    {
      ghost var k := st.k;
      PartlyInv(k0, cpu, process, i, k);
      CutRemoves(k0, cpu, process, i, k);
      var child := RemoveChild(st, process);
      GuardedParts(k0, cpu, process, i);
      CutRooted(k0, cpu, process, i, st.k);
      ghost var k1 := st.k;
      TerminateSubtree(st, cpu, child.value);
      PartlyNext(k0, cpu, process, i, k1, st.k);
      i := i + 1;
      PartlyInv(k0, cpu, process, i, st.k);
      empty := EmptyChild(st, process);
    }
    PartlyInv(k0, cpu, process, i, st.k);
    LastState(k0, cpu, process, st.k);
    ghost var k := st.k;
    NotStale(k, cpu, process);
    ReapProcess(st, cpu, process);
    LastReap(k0, cpu, process, k);
  }

  /** termProc: find the process with the given pid among the ready and the blocked ones (or take the
    * caller for pid 0) and terminate its tree; nothing happens when there is none.  Called, and
    * specified, for trees that satisfy the guard. */
  method TermProc(st: Store, cpu: nat, pid: int)
    requires Entry(st) && cpu < NCPU && st.k.running[cpu].Some?
    requires forall p: nat :: IsTarget(st.k, cpu, pid, Some(p)) ==> Guarded(st.k, cpu, Subtree(st.k, p))
    modifies st.Parts()
    ensures Entry(st) && Next(old(st.k), TermE(cpu, pid), st.k)
    ensures Exactness.TermSpec(old(st.k), cpu, pid, st.k)
  {
    hide Rep, ListX.WellFormed, KernelInv.Inv, Removed, Guarded, Subtree, Exactness.TermSpec;
    ghost var k0 := st.k;
    RepBasics(st.k, st.asl, st.semdFree, st.semdKey[..], st.mem.lists);
    var tbt := st.current[cpu];
    if pid != 0 {
      tbt := AslC.FindPidIn(st, ReadyQ, st.k.ready, pid);
      if tbt.None? {
        tbt := AslC.GetProc(st, pid);
        if tbt.None? {
          assert IsTarget(k0, cpu, pid, None) && Terminates(k0, cpu, None, st.k);
          ReadyAfter(st, k0, TermE(cpu, pid));
          Exactness.TerminatedByPid(k0, cpu, pid, st.k);
          return;
        }
      }
    }
    assert IsTarget(k0, cpu, pid, tbt);
    KernelRun.TargetLive(k0, cpu, pid, tbt.value);
    TerminateSubtree(st, cpu, tbt.value);
    assert Terminates(k0, cpu, tbt, st.k);
    ReadyAfter(st, k0, TermE(cpu, pid));
    Exactness.TerminatedByPid(k0, cpu, pid, st.k);
  }
}
