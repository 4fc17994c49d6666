/** The pager under its mutex: the paging state machine and getMutex / releaseMutex of swap_pool_sem,
  * interleaved.  A process is named by its address space identifier, here also its pid on the mutex. */
module PagerSystem {
  import Mutex
  import Pager
  import Semaphores

  /** Where a process is: in user code (or in calls on other mutexes), in getMutex, past getMutex, between
    * getSwapFrame and the end of the last critical section, in releaseMutex. */
  datatype At = User | Entering | Owner | Paging | Releasing

  datatype System = System(mutex: Mutex.State, vm: Pager.Vm, at: map<nat, At>)

  datatype Event = OnMutex(call: Mutex.Event) | OnVm(step: Pager.Event)

  /** A process enters getMutex after a page fault, and calls releaseMutex when the page is mapped; it may
    * also call it from user code, through releaseAllMutex. */
  predicate MutexTurn(s: System, e: Mutex.Event) {
    && e.pid in s.at
    && match e
       case CallP(p) => s.at[p] == User && !Pager.Running(s.vm, p)
       case WriteHolder(p) => s.at[p] == Entering
       case Test(p) => s.at[p] == User || s.at[p] == Releasing
       case CallV(p) => s.at[p] == Releasing
       case Clear(p) => s.at[p] == Releasing
  }

  /** Processes in user code access memory; the pager's steps are those of a process past getMutex. */
  predicate VmTurn(s: System, e: Pager.Event) {
    match e
    case Refill(k, _) => k.asid in s.at && s.at[k.asid] == User
    case Fault(k, _) => k.asid in s.at && s.at[k.asid] == User
    case Store(k, _, _, _) => k.asid in s.at && s.at[k.asid] == User
    case Load(k, _, _) => k.asid in s.at && s.at[k.asid] == User
    case Claim(k) => k.asid in s.at && s.at[k.asid] == Owner && k in s.vm.faulted
    case _ => !s.vm.phase.Idle? && s.vm.phase.fault.asid in s.at && s.at[s.vm.phase.fault.asid] == Paging
  }

  function AfterMutex(s: System, e: Mutex.Event, m': Mutex.State): map<nat, At>
    requires e.pid in s.at
  {
    match e
    case CallP(p) => s.at[p := Entering]
    case WriteHolder(p) => s.at[p := Owner]
    case Test(p) => s.at[p := if p in m'.phase && m'.phase[p] == Mutex.Tested then Releasing else User]
    case CallV(p) => s.at
    case Clear(p) => s.at[p := User]
  }

  function AfterVm(s: System, e: Pager.Event): map<nat, At> {
    match e
    case Claim(k) => s.at[k.asid := Paging]
    case Map => if s.vm.phase.Idle? then s.at else s.at[s.vm.phase.fault.asid := Releasing]
    case _ => s.at
  }

  /** One step of the system. */
  ghost predicate Next(s: System, e: Event, s': System) {
    match e
    case OnMutex(m) =>
      MutexTurn(s, m) && Mutex.StepTo(s.mutex, m, s'.mutex) && s'.vm == s.vm && s'.at == AfterMutex(s, m, s'.mutex)
    case OnVm(v) =>
      && VmTurn(s, v) && Pager.Sized(s.vm) && Pager.Enabled(s.vm, v)
      && s'.vm == Pager.Step(s.vm, v) && s'.mutex == s.mutex && s'.at == AfterVm(s, v)
  }

  predicate Init(s: System) {
    && Mutex.Init(s.mutex) && Pager.Initial(s.vm)
    && s.at.Keys == s.mutex.phase.Keys && forall p :: p in s.at ==> s.at[p] == User
  }

  /** Whoever is past getMutex holds the mutex, and the pager is busy exactly while its owner is paging. */
  ghost predicate Inv(s: System) {
    && Mutex.Inv(s.mutex) && Pager.Inv(s.vm) && s.at.Keys == s.mutex.phase.Keys
    && (forall p :: p in s.at && (s.at[p] == Owner || s.at[p] == Paging) ==> p in s.mutex.inside)
    && (forall p :: p in s.at && (s.at[p] == Owner || s.at[p] == Paging) ==> s.mutex.phase[p] == Mutex.Outside)
    && (forall p :: p in s.at && s.at[p] == Paging ==> !s.vm.phase.Idle? && s.vm.phase.fault.asid == p)
    && (!s.vm.phase.Idle? ==> s.vm.phase.fault.asid in s.at && s.at[s.vm.phase.fault.asid] == Paging)
  }

  lemma InitInv(s: System)
    requires Init(s)
    ensures Inv(s)
  {
    hide Mutex.Inv, Pager.Inv;
    Mutex.InitInv(s.mutex);
    Pager.InitialInv(s.vm);
  }

  /** A process past getMutex that wants a frame finds the pager free: the condition Pager puts on Claim
    * is met whenever the code gets there. */
  lemma ClaimFindsPagerFree(s: System, k: Pager.Key)
    requires Inv(s) && VmTurn(s, Pager.Claim(k))
    ensures s.vm.phase.Idle? && Pager.Enabled(s.vm, Pager.Claim(k))
  {
    hide Pager.Inv;
    Mutex.OnlyOne(s.mutex.inside, k.asid);
  }

  /** Only its own V takes a process out of the mutex, and only its own calls change its phase there, but
    * for being woken. */
  lemma OthersKeepInside(m: Mutex.State, e: Mutex.Event, p: nat)
    requires Mutex.Inv(m) && Mutex.Enabled(m, e) && p in m.inside && p in m.phase && e.pid != p
    ensures p in Mutex.Step(m, e).inside
    ensures p in Mutex.Step(m, e).phase && (m.phase[p] == Mutex.Outside ==> Mutex.Step(m, e).phase[p] == Mutex.Outside)
  {
    hide Semaphores.PQueue, Semaphores.VQueue;
    Mutex.OnlyOne(m.inside, p);
  }

  lemma KeysKept(m: Mutex.State, e: Mutex.Event)
    requires Mutex.Inv(m) && Mutex.Enabled(m, e)
    ensures Mutex.Step(m, e).phase.Keys == m.phase.Keys
    ensures e.WriteHolder? ==> e.pid in Mutex.Step(m, e).inside && Mutex.Step(m, e).phase[e.pid] == Mutex.Outside
  {
    hide Semaphores.PQueue, Semaphores.VQueue;
  }

  lemma MutexStepKeeps(s: System, e: Mutex.Event, s': System)
    requires Inv(s) && Next(s, OnMutex(e), s')
    ensures Inv(s')
  {
    hide Mutex.Inv, Mutex.Step, Mutex.Enabled, Pager.Inv;
    Mutex.StepInv(s.mutex, e);
    KeysKept(s.mutex, e);
    PagingKept(s, e, s');
    hide MutexTurn, AfterMutex;
    forall p | p in s'.at && (s'.at[p] == Owner || s'.at[p] == Paging)
      ensures p in s'.mutex.phase && p in s'.mutex.inside && s'.mutex.phase[p] == Mutex.Outside
    {
      OwnersStay(s, e, s', p);
    }
  }

  /** No call on the mutex starts or ends the paging of a process. */
  lemma PagingKept(s: System, e: Mutex.Event, s': System)
    requires Next(s, OnMutex(e), s')
    ensures s'.at.Keys == s.at.Keys
    ensures forall p :: p in s.at ==> (s'.at[p] == Paging <==> s.at[p] == Paging)
  {
  }

  lemma OwnersStay(s: System, e: Mutex.Event, s': System, p: nat)
    requires Inv(s) && Next(s, OnMutex(e), s') && p in s'.at && (s'.at[p] == Owner || s'.at[p] == Paging)
    ensures p in s'.mutex.phase && p in s'.mutex.inside && s'.mutex.phase[p] == Mutex.Outside
  {
    hide Mutex.Inv, Mutex.Step, Mutex.Enabled, Pager.Inv;
    KeysKept(s.mutex, e);
    if p != e.pid {
      OthersKeepInside(s.mutex, e, p);
    }
  }

  lemma VmStepKeeps(s: System, e: Pager.Event, s': System)
    requires Inv(s) && Next(s, OnVm(e), s')
    ensures Inv(s')
  {
    hide Mutex.Inv, Pager.Inv, Pager.UpdateTlb, Pager.Sized;
    Pager.StepKeepsInv(s.vm, e);
  }

  lemma StepKeepsInv(s: System, e: Event, s': System)
    requires Inv(s) && Next(s, e, s')
    ensures Inv(s')
  {
    hide Inv, Next;
    match e
    case OnMutex(m) => MutexStepKeeps(s, m, s');
    case OnVm(v) => VmStepKeeps(s, v, s');
  }

  // ---------------------------------------------------------------- runs

  ghost predicate Run(ss: seq<System>, es: seq<Event>) {
    && |ss| == |es| + 1 && Init(ss[0])
    && forall i :: 0 <= i < |es| ==> Next(ss[i], es[i], ss[i + 1])
  }

  lemma {:induction false} RunInv(ss: seq<System>, es: seq<Event>, n: nat)
    requires Run(ss, es) && n < |ss|
    ensures Inv(ss[n])
  {
    hide Inv, Next, Init;
    if n == 0 {
      InitInv(ss[0]);
    } else {
      var m := n - 1;
      RunInv(ss, es, m);
      StepKeepsInv(ss[m], es[m], ss[m + 1]);
    }
  }

  /** The paging events of a run, in order. */
  ghost function VmEvents(es: seq<Event>): seq<Pager.Event> {
    if es == [] then []
    else
      var e := es[|es| - 1];
      VmEvents(es[..|es| - 1]) + (if e.OnVm? then [e.step] else [])
  }

  lemma VmEventsNext(es: seq<Event>, m: nat)
    requires m < |es|
    ensures VmEvents(es[..m + 1]) == if es[m].OnVm? then VmEvents(es[..m]) + [es[m].step] else VmEvents(es[..m])
  {
    assert es[..m + 1][..m] == es[..m] && es[..m + 1][m] == es[m];
  }

  lemma StoredNext(vs: seq<Pager.Event>, v: Pager.Event, k: Pager.Key, offset: nat, before: int)
    ensures Pager.LastStored(vs + [v], k, offset, before) ==
      if v.Store? && v.key == k && v.offset == offset then v.word else Pager.LastStored(vs, k, offset, before)
  {
    assert (vs + [v])[..|vs|] == vs;
  }

  /** Under the mutex, whatever its races, paging is invisible: every page is at every point what the
    * stores so far made of what the process was loaded with. */
  lemma {:induction false} PagingIsInvisible(ss: seq<System>, es: seq<Event>, n: nat, k: Pager.Key, offset: nat)
    requires Run(ss, es) && n < |ss| && Pager.InLayout(k) && offset < Pager.PAGEWORDS
    ensures Pager.Inv(ss[n].vm) && k in ss[n].vm.ptes && k in ss[0].vm.flash
    ensures Pager.Contents(ss[n].vm, k)[offset]
         == Pager.LastStored(VmEvents(es[..n]), k, offset, ss[0].vm.flash[k][offset])
  {
    hide Pager.Inv, Pager.Contents, Pager.Initial, Pager.Step, Pager.Enabled, Next, Mutex.Inv;
    RunInv(ss, es, n);
    RunInv(ss, es, 0);
    KeysKnown(ss[n].vm);
    KeysKnown(ss[0].vm);
    if n == 0 {
      Pager.InitialContents(ss[0].vm, k);
    } else {
      var m := n - 1;
      PagingIsInvisible(ss, es, m, k, offset);
      RunInv(ss, es, m);
      assert Next(ss[m], es[m], ss[m + 1]);
      StepWord(ss[m], es[m], ss[n], k, offset);
      VmEventsNext(es, m);
      if es[m].OnVm? {
        StoredNext(VmEvents(es[..m]), es[m].step, k, offset, ss[0].vm.flash[k][offset]);
      }
    }
  }

  /** A load in a run of the system returns the last word stored there. */
  lemma LoadReturnsLastStore(ss: seq<System>, es: seq<Event>, n: nat)
    requires Run(ss, es) && n < |es| && es[n].OnVm? && es[n].step.Load?
    ensures var (l, vm) := (es[n].step, ss[n].vm);
      && Pager.Hit(vm, l.key, l.slot) && vm.tlb[l.slot].pte.Valid? && vm.tlb[l.slot].pte.frame < |vm.frames|
      && l.key in ss[0].vm.flash && l.offset < Pager.PAGEWORDS
      && vm.frames[vm.tlb[l.slot].pte.frame][l.offset]
         == Pager.LastStored(VmEvents(es[..n]), l.key, l.offset, ss[0].vm.flash[l.key][l.offset])
  {
    hide Pager.TablesAgree, Pager.TlbAgrees, Pager.HistoryAgrees, Pager.Step, Mutex.Inv;
    var (l, vm) := (es[n].step, ss[n].vm);
    assert Next(ss[n], es[n], ss[n + 1]);
    RunInv(ss, es, n);
    Pager.HitReachesContents(vm, l.key, l.slot);
    PagingIsInvisible(ss, es, n, l.key, l.offset);
  }

  lemma KeysKnown(s: Pager.Vm)
    requires Pager.Inv(s)
    ensures forall k :: Pager.InLayout(k) ==> k in s.ptes && k in s.flash
  {
  }

  lemma StepWord(s: System, e: Event, s': System, k: Pager.Key, offset: nat)
    requires Inv(s) && Next(s, e, s') && k in s.vm.ptes && offset < Pager.PAGEWORDS
    ensures Pager.Inv(s'.vm) && k in s'.vm.ptes
    ensures Pager.Contents(s'.vm, k)[offset] ==
      if e.OnVm? && e.step.Store? && e.step.key == k && e.step.offset == offset then e.step.word
      else Pager.Contents(s.vm, k)[offset]
  {
    hide Pager.Inv, Pager.Contents, Pager.Step, Mutex.Inv;
    if e.OnVm? {
      Pager.StepKeepsWord(s.vm, e.step, s'.vm, k, offset);
    }
  }
}
