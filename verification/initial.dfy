/** phase2/initial.c: building the initial kernel state. */
module InitialC {
  import opened KernelTypes
  import opened KernelState
  import opened KernelStore
  import opened PcbC
  import opened ExceptionsC
  import ListX
  import KernelInv
  import KernelRun
  import Sections

  /** list_add of n nodes, in order: the list ends up counting down. */
  lemma CountdownStep(i: nat)
    ensures [PList(i)] + PLists(Countdown(i)) == PLists(Countdown(i + 1))
    ensures [SLink(i)] + SLinks(Countdown(i)) == SLinks(Countdown(i + 1))
  {
  }

  /** initPcbs */
  method InitPcbs(mem: ListX.ListMem<Addr>)
    requires mem.Valid() && mem.lists == map[] && mem.home == map[]
    modifies mem
    ensures mem.Valid()
    ensures mem.lists == map[PcbFreeH := PLists(Countdown(MAXPROC))]
    ensures forall a :: a in mem.home ==> a.PList?
  {
    hide ListX.WellFormed;
    mem.InitListHead(PcbFreeH, true);
    assert PLists(Countdown(0)) == [];
    for i := 0 to MAXPROC
      invariant mem.Valid() && mem.lists == map[PcbFreeH := PLists(Countdown(i))]
      invariant forall a :: a in mem.home ==> a.PList? && a.p < i
    {
      CountdownStep(i);
      mem.ListAdd(PList(i), PcbFreeH);
    }
  }

  /** initASL */
  method InitAsl(mem: ListX.ListMem<Addr>)
    requires mem.Valid() && mem.lists == map[PcbFreeH := PLists(Countdown(MAXPROC))]
    requires forall a :: a in mem.home ==> a.PList?
    modifies mem
    ensures mem.Valid()
    ensures mem.lists == old(mem.lists)[SemdFreeH := SLinks(Countdown(MAXPROC))][SemdH := []]
    ensures forall a :: a in mem.home ==> a.PList? || a.SLink?
  {
    hide ListX.WellFormed;
    mem.InitListHead(SemdFreeH, true);
    mem.InitListHead(SemdH, true);
    assert SLinks(Countdown(0)) == [];
    for i := 0 to MAXPROC
      invariant mem.Valid()
      invariant mem.lists == old(mem.lists)[SemdFreeH := SLinks(Countdown(i))][SemdH := []]
      invariant forall a :: a in mem.home ==> a.PList? || (a.SLink? && a.d < i)
    {
      CountdownStep(i);
      mem.ListAdd(SLink(i), SemdFreeH);
    }
  }

  /** The tables when no PCB is allocated yet. */
  ghost function Unused(pcb: seq<Pcb>, val: map<Key, int>): K
    requires |pcb| == MAXPROC
  {
    K(Countdown(MAXPROC), [], seq(NCPU, i => None), map[], val, seq(MAXPROC, i => []), pcb, 0, 0)
  }

  lemma UnusedInv(pcb: seq<Pcb>, val: map<Key, int>, n: nat)
    requires |pcb| == MAXPROC == n && forall p :: 0 <= p < MAXPROC ==> pcb[p].parent == None
    ensures KernelInv.Inv(Unused(pcb, val))
  {
    var k := Unused(pcb, val);
    var loc := seq(n, p => KernelInv.InFree);
    forall p: nat | p < n ensures p in k.free {
      assert k.free[n - 1 - p] == p;
    }
    assert KernelInv.Holds(k.free, loc, KernelInv.InFree);
    assert KernelInv.InvAt(k, loc);
  }

  lemma UnusedRep(pcb: seq<Pcb>, val: map<Key, int>, keys: seq<Key>, n: nat)
    requires |pcb| == MAXPROC == |keys| == n
    ensures Rep(Unused(pcb, val), [], Countdown(n), keys,
                map[PcbFreeH := PLists(Countdown(n)), SemdFreeH := SLinks(Countdown(n)), SemdH := [], ReadyQ := []])
  {
    var k := Unused(pcb, val);
    forall p: nat | p < n ensures p in k.free {
      assert k.free[n - 1 - p] == p;
    }
    assert SLinks([]) == [] && PLists([]) == [];
  }

  method ClearCurrent(current: array<Option<nat>>)
    requires current.Length == NCPU
    modifies current
    ensures current[..] == seq(NCPU, i => None)
  {
    for i := 0 to NCPU
      invariant forall j :: 0 <= j < i ==> current[j] == None
    {
      current[i] := None;
    }
  }

  method ClearDeviceSemaphores(st: Store)
    modifies st`word
    ensures forall i: nat :: i < SEMDEVLEN ==> Dev(i) in st.word && st.word[Dev(i)] == 0
  {
    for i := 0 to SEMDEVLEN
      invariant forall j: nat :: j < i ==> Dev(j) in st.word && st.word[Dev(j)] == 0
    {
      st.word := st.word[Dev(i) := 0];
    }
  }

  /** main, up to the first call of Scheduler: one process, ready, and every other PCB free. */
  method Boot(s: PState) returns (st: Store)
    ensures fresh(st.Parts()) && Entry(st)
    ensures exists pcb: seq<Pcb> :: |pcb| == MAXPROC && st.k == KernelState.Boot(s, pcb, st.word)
    ensures Sections.BootSpec(st.k, s)
    ensures forall i: nat :: i < SEMDEVLEN ==> Dev(i) in st.word && st.word[Dev(i)] == 0
  {
    hide ListX.WellFormed, Rep, Countdown, KernelInv.Inv;
    st := new Store();
    InitPcbs(st.mem);
    InitAsl(st.mem);
    st.processCount := 0;
    st.mem.InitListHead(ReadyQ, true);
    ClearCurrent(st.current);
    ClearDeviceSemaphores(st);
    ghost var pcb := st.pcbTable[..];
    st.k, st.asl, st.semdFree := Unused(pcb, st.word), [], Countdown(MAXPROC);
    assert st.current[..] == seq(NCPU, i => None);
    assert st.mem.lists == map[PcbFreeH := PLists(Countdown(MAXPROC)), SemdFreeH := SLinks(Countdown(MAXPROC)),
                               SemdH := [], ReadyQ := []];
    UnusedRep(pcb, st.word, st.semdKey[..], MAXPROC);
    UnusedInv(pcb, st.word, MAXPROC);
    FirstProcess(st, pcb, s);
    Sections.BootIs(s, pcb, st.word, MAXPROC - 1);
  }

  /** The first process: allocPcb, its state, insertProcQ, process_count. */
  method FirstProcess(st: Store, ghost pcb: seq<Pcb>, s: PState)
    requires st.Valid() && |pcb| == MAXPROC && st.k == Unused(pcb, st.word) && KernelInv.Inv(st.k)
    requires forall p :: 0 <= p < MAXPROC ==> pcb[p].parent == None
    modifies st.Parts()
    ensures Entry(st) && st.k == KernelState.Boot(s, pcb, st.word) && st.word == old(st.word)
  {
    hide ListX.WellFormed, Rep, KernelInv.Inv;
    var p := AllocPcb(st);
    assert Countdown(MAXPROC)[1..] == Countdown(MAXPROC - 1);
    SaveState(st, p.value, s);
    BootNowhere(st.k, p.value);
    InsertReady(st, p.value);
    AddCount(st, 1);
    assert st.k == KernelState.Boot(s, pcb, st.word);
    KernelRun.BootInv(s, pcb, st.word);
    KernelInv.InvBounded(st.k);
  }

  lemma BootNowhere(k: K, p: nat)
    requires k.free == Countdown(p) && k.ready == [] && k.blocked == map[]
    ensures Nowhere(k, p)
  {
  }
}
