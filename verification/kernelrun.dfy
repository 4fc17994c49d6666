/** Runs of the nucleus: any interleaving of the sections executed by the CPUs, each atomic under
  * global_lock. */
module KernelRun {
  import opened KernelTypes
  import opened KernelState
  import opened KernelInv
  import KernelTerm
  import ListX

  // ---------------------------------------------------------------- one step

  lemma PKeeps(k: K, cpu: nat, key: Key, st: PState)
    requires Inv(k) && Bounded(k) && cpu < NCPU && k.running[cpu].Some?
    ensures Inv(P(k, cpu, key, st))
  {
    hide InvAt, Block, Wake;
    var loc: seq<Place> :| InvAt(k, loc);
    InsertBlockedNeverFails(k, cpu, key);
    AddKeeps(k, loc, key, -1);
    var a := BlockKeeps(Add(k, key, -1), loc, cpu, key, st);
    var b := WakeKeeps(Add(k, key, -1), loc, key);
  }

  lemma VKeeps(k: K, cpu: nat, key: Key, st: PState)
    requires Inv(k) && Bounded(k) && cpu < NCPU && k.running[cpu].Some?
    ensures Inv(V(k, cpu, key, st))
  {
    hide InvAt, Block, Wake;
    var loc: seq<Place> :| InvAt(k, loc);
    InsertBlockedNeverFails(k, cpu, key);
    AddKeeps(k, loc, key, 1);
    var a := BlockKeeps(Add(k, key, 1), loc, cpu, key, st);
    var b := WakeKeeps(Add(k, key, 1), loc, key);
  }

  lemma DoIOKeeps(k: K, cpu: nat, addr: nat, st: PState)
    requires Inv(k) && Bounded(k) && cpu < NCPU && k.running[cpu].Some? && HasSemaphore(addr)
    ensures Inv(DoIO(k, cpu, addr, st))
  {
    hide InvAt, Block;
    var key := Dev(IndexOf(addr));
    var loc: seq<Place> :| InvAt(k, loc);
    InsertBlockedNeverFails(k, cpu, key);
    AddKeeps(k, loc, key, -1);
    var a := BlockKeeps(Add(k, key, -1), loc, cpu, key, st);
  }

  lemma ClockWaitKeeps(k: K, cpu: nat, st: PState)
    requires Inv(k) && Bounded(k) && cpu < NCPU && k.running[cpu].Some?
    ensures Inv(ClockWait(k, cpu, st))
    ensures ClockWait(k, cpu, st) == Block(k, cpu, Dev(PSEUDOCLOCK), st)
  {
    hide InvAt, Block;
    var loc: seq<Place> :| InvAt(k, loc);
    InsertBlockedNeverFails(k, cpu, Dev(PSEUDOCLOCK));
    var a := BlockKeeps(k, loc, cpu, Dev(PSEUDOCLOCK), st);
  }

  lemma InterruptKeeps(k: K, line: nat, dev: nat, reg0: nat, reg2: nat)
    requires Inv(k) && Bounded(k) && 3 <= line <= 7 && dev < 8
    ensures Inv(Interrupt(k, line, dev, reg0, reg2))
  {
    hide InvAt, Signal;
    var loc: seq<Place> :| InvAt(k, loc);
    var i := InterruptKey(line, dev, reg0, reg2);
    if i.Some? {
      var l := SignalKeeps(k, loc, Dev(i.value.0), i.value.1);
    }
  }

  lemma CreateStepKeeps(k: K, cpu: nat, st: PState)
    requires Inv(k) && Bounded(k) && cpu < NCPU
    ensures Inv(Create(k, cpu, st))
  {
    hide InvAt, Create;
    var loc: seq<Place> :| InvAt(k, loc);
    var l := CreateKeeps(k, loc, cpu, st);
  }

  lemma TickStepKeeps(k: K)
    requires Inv(k)
    ensures Inv(Tick(k))
  {
    hide InvAt, Tick;
    var loc: seq<Place> :| InvAt(k, loc);
    var l := TickKeeps(k, loc);
  }

  lemma PltStepKeeps(k: K, cpu: nat, st: PState)
    requires Inv(k) && Bounded(k) && cpu < NCPU && k.running[cpu].Some?
    ensures Inv(Plt(k, cpu, st))
  {
    hide InvAt, Plt;
    var loc: seq<Place> :| InvAt(k, loc);
    var l := PltKeeps(k, loc, cpu, st);
  }

  lemma DispatchStepKeeps(k: K, cpu: nat)
    requires Inv(k) && Bounded(k) && cpu < NCPU && k.running[cpu].None?
    ensures Inv(Dispatch(k, cpu))
  {
    hide InvAt, Dispatch;
    var loc: seq<Place> :| InvAt(k, loc);
    var l := DispatchKeeps(k, loc, cpu);
  }

  lemma TerminationKeeps(k: K, cpu: nat, pid: int, t: Option<nat>, k': K)
    requires Inv(k) && Shape(k) && cpu < NCPU && k.running[cpu].Some?
    requires IsTarget(k, cpu, pid, t) && Terminates(k, cpu, t, k')
    ensures Inv(k')
  {
    if t.Some? {
      TargetLive(k, cpu, pid, t.value);
      KernelTerm.SubtreeRemovable(k, cpu, t.value);
      KernelTerm.RemovedKeepsInv(k, cpu, Subtree(k, t.value), Detached(k, t.value), k');
    }
  }

  lemma TargetLive(k: K, cpu: nat, pid: int, p: nat)
    requires Inv(k) && Shape(k) && cpu < NCPU && IsTarget(k, cpu, pid, Some(p))
    ensures p < MAXPROC && p !in k.free
  {
    var loc: seq<Place> :| InvAt(k, loc);
    forall key | key in k.blocked && p in k.blocked[key] ensures p !in k.free {
      assert Holds(k.blocked[key], loc, InQueue(key));
    }
  }

  /** Every step the machine admits keeps the invariant: TERMPROCESS on guarded subtrees, Scheduler on CPUs
    * that run nothing, and every other section. */
  lemma StepKeepsInv(k: K, e: Event, k': K)
    requires Inv(k) && Bounded(k) && Next(k, e, k')
    ensures Inv(k')
  {
    hide Inv, Create, P, V, DoIO, ClockWait, Plt, Tick, Interrupt, Dispatch, Terminates, IsTarget;
    match e {
      case CreateE(cpu, st) => CreateStepKeeps(k, cpu, st);
      case PE(cpu, key, st) => PKeeps(k, cpu, key, st);
      case VE(cpu, key, st) => VKeeps(k, cpu, key, st);
      case DoIOE(cpu, addr, st) => DoIOKeeps(k, cpu, addr, st);
      case ClockWaitE(cpu, st) => ClockWaitKeeps(k, cpu, st);
      case PltE(cpu, st) => PltStepKeeps(k, cpu, st);
      case TickE(_) => TickStepKeeps(k);
      case InterruptE(_, line, dev, reg0, reg2) => InterruptKeeps(k, line, dev, reg0, reg2);
      case SchedE(cpu) => DispatchStepKeeps(k, cpu);
      case TermE(cpu, pid) =>
        var t :| IsTarget(k, cpu, pid, t) && Terminates(k, cpu, t, k');
        TerminationKeeps(k, cpu, pid, t, k');
    }
  }

  // ---------------------------------------------------------------- runs

  /** ks[i+1] is a possible result of event es[i] in state ks[i]. */
  ghost predicate Run(ks: seq<K>, es: seq<Event>) {
    && |ks| == |es| + 1
    && Inv(ks[0])
    && forall i :: 0 <= i < |es| ==> Bounded(ks[i]) && Next(ks[i], es[i], ks[i + 1])
  }

  lemma {:induction false} RunInv(ks: seq<K>, es: seq<Event>, n: nat)
    requires Run(ks, es) && n < |ks|
    ensures Inv(ks[n]) && Bounded(ks[n])
  {
    if n > 0 {
      RunInv(ks, es, n - 1);
      StepKeepsInv(ks[n - 1], es[n - 1], ks[n]);
    }
    InvBounded(ks[n]);
  }

  lemma RunStep(ks: seq<K>, es: seq<Event>, n: nat)
    requires Run(ks, es) && n < |es|
    ensures Inv(ks[n]) && Bounded(ks[n]) && Inv(ks[n + 1]) && Bounded(ks[n + 1]) && Next(ks[n], es[n], ks[n + 1])
    ensures Shape(ks[n]) && Shape(ks[n + 1])
  {
    RunInv(ks, es, n);
    RunInv(ks, es, n + 1);
  }

  /** The state built by main() starts a run. */
  lemma BootInv(st: PState, pcb: seq<Pcb>, val: map<Key, int>)
    requires |pcb| == MAXPROC && forall p :: 0 <= p < MAXPROC ==> pcb[p].parent == None
    ensures Inv(Boot(st, pcb, val))
  {
    var k := Boot(st, pcb, val);
    var loc := seq(MAXPROC, p => if p == MAXPROC - 1 then InReady else InFree);
    forall p: nat | p < MAXPROC - 1 ensures p in k.free {
      assert k.free[MAXPROC - 2 - p] == p;
    }
    assert Holds(k.free, loc, InFree);
    assert Holds(k.ready, loc, InReady);
    assert InvAt(k, loc);
  }

  /** In every state of every run each PCB is in exactly one place, once, and process_count is the
    * number of PCBs off the free list. */
  lemma EveryPcbInOnePlaceAlways(ks: seq<K>, es: seq<Event>, n: nat, p: nat)
    requires Run(ks, es) && n < |ks| && p < MAXPROC
    ensures exists place :: At(ks[n], p, place) && forall other :: At(ks[n], p, other) ==> other == place
    ensures ListX.NoDup(ks[n].free) && ListX.NoDup(ks[n].ready)
    ensures forall key :: key in ks[n].blocked ==> ListX.NoDup(ks[n].blocked[key])
    ensures ks[n].count == MAXPROC - |ks[n].free|
  {
    RunInv(ks, es, n);
    EveryPcbInOnePlace(ks[n], p);
  }

  ghost predicate Forest(k: K) {
    && Shape(k)
    && (forall p: nat, c: nat {:trigger k.children[p], k.pcb[c]} :: p < MAXPROC && c < MAXPROC ==>
          (c in k.children[p] <==> k.pcb[c].parent == Some(p)))
    && (forall p: nat {:trigger k.children[p]} :: p < MAXPROC ==> ListX.NoDup(k.children[p]))
    && (forall p: nat, q: nat {:trigger k.pcb[p], k.pcb[q]} ::
          p < MAXPROC && q < MAXPROC && p !in k.free && q !in k.free && p != q ==>
          k.pcb[p].pid != k.pcb[q].pid)
  }

  lemma InvForest(k: K)
    requires Inv(k)
    ensures Forest(k)
  {
    hide Placed, QueuesOk;
    var loc: seq<Place> :| InvAt(k, loc);
    forall p: nat {:trigger k.children[p]} | p < MAXPROC ensures Siblings(k.children[p], k.pcb, p) {
    }
  }

  lemma NotOwnAncestor(pcb: seq<Pcb>, p: nat, d: nat)
    requires p < |pcb| && p != d && Under(pcb, p, d)
    ensures d < |pcb| && pcb[p].pid < pcb[d].pid && !Under(pcb, d, p)
  {
    KernelTerm.UnderPid(pcb, p, d);
    if Under(pcb, d, p) {
      KernelTerm.UnderPid(pcb, d, p);
    }
  }

  /** In every run the process tree is a forest: parents and child lists agree, siblings are listed
    * once and live pids differ; a parent's pid is below its children's, so that no process is its
    * own ancestor. */
  lemma TreeIsForestAlways(ks: seq<K>, es: seq<Event>, n: nat)
    requires Run(ks, es) && n < |ks|
    ensures Forest(ks[n])
    ensures forall p: nat, d: nat :: p < MAXPROC && d < MAXPROC && p != d && Under(ks[n].pcb, p, d) ==>
      ks[n].pcb[p].pid < ks[n].pcb[d].pid && !Under(ks[n].pcb, d, p)
  {
    RunInv(ks, es, n);
    InvForest(ks[n]);
    forall p: nat, d: nat | p < MAXPROC && d < MAXPROC && p != d && Under(ks[n].pcb, p, d)
      ensures ks[n].pcb[p].pid < ks[n].pcb[d].pid && !Under(ks[n].pcb, d, p)
    {
      NotOwnAncestor(ks[n].pcb, p, d);
    }
  }

  /** Scheduler halts when the ready queue is empty and process_count is 0. */
  predicate Halts(k: K) {
    k.ready == [] && k.count == 0
  }

  /** When Scheduler halts, nothing is left: every PCB is free, no CPU runs a process and no
    * semaphore has waiters. */
  lemma HaltMeansAllFree(k: K)
    requires Inv(k) && Halts(k)
    ensures |k.free| == MAXPROC && forall p :: 0 <= p < MAXPROC ==> p in k.free
    ensures k.blocked == map[]
    ensures Shape(k) && forall c :: 0 <= c < NCPU ==> k.running[c] == None
  {
    var loc: seq<Place> :| InvAt(k, loc);
    FullRange(k.free, MAXPROC);
    forall p | 0 <= p < MAXPROC ensures loc[p] == InFree {
      assert p in k.free;
    }
    forall key | key in k.blocked ensures false {
      assert Holds(k.blocked[key], loc, InQueue(key));
      HasMember(k.blocked[key]);
    }
  }

  /** n different indices below n are all of them. */
  lemma FullRange(q: seq<nat>, n: nat)
    requires ListX.NoDup(q) && |q| == n && forall p :: p in q ==> p < n
    ensures forall p :: 0 <= p < n ==> p in q
  {
    var S := set p | p in q;
    KernelTerm.SizeOfElements(q, S);
    forall p | 0 <= p < n ensures p in q {
      if p !in q {
        SubsetSize(S, Upto(n) - {p});
      }
    }
  }

  ghost function Upto(n: nat): (s: set<nat>)
    ensures |s| == n && forall p: nat :: p in s <==> p < n
  {
    if n == 0 then {} else Upto(n - 1) + {n - 1}
  }
}
