/** Saved states over whole runs: a process resumes in the state in which it left its CPU, and a new one
  * starts in the state it was given. */
module Resume {
  import opened KernelTypes
  import opened KernelState
  import opened KernelInv
  import opened KernelRun
  import opened Semaphores
  import opened Sections
  import Devices
  import Exactness
  import KernelTerm
  import ListX

  // ---------------------------------------------------------------- leaving and coming back

  /** Step e takes p off its CPU, not by a termination; the state at that moment is s. */
  ghost predicate Leaves(k: K, e: Event, k': K, p: nat, s: PState) {
    && (e.PE? || e.VE? || e.DoIOE? || e.ClockWaitE? || e.PltE?) && e.st == s
    && e.cpu < |k.running| == |k'.running| && k.running[e.cpu] == Some(p) && k'.running[e.cpu] != Some(p)
  }

  /** Scheduler puts p on a CPU; it loads the state in the PCB. */
  ghost predicate Dispatched(e: Event, k': K, p: nat) {
    e.SchedE? && e.cpu < |k'.running| && k'.running[e.cpu] == Some(p)
  }

  /** After step n and up to state m, p is neither terminated nor dispatched. */
  ghost predicate Aside(ks: seq<K>, es: seq<Event>, p: nat, n: nat, m: nat)
    requires m <= |es| < |ks|
  {
    && (forall r :: n < r <= m ==> p !in ks[r].free)
    && (forall r :: n < r < m ==> !Dispatched(es[r], ks[r + 1], p))
  }

  /** The status register an interrupt reports: the transmitter's first. */
  function StatusWord(e: Event): nat
    requires e.InterruptE?
  {
    if e.line == 7 && Devices.Reports(e.reg2) then e.reg2 else e.reg0
  }

  /** The state in which a process is ready after step e: an interrupt leaves its status as the result. */
  function After(s: PState, e: Event): PState {
    if e.InterruptE? then s.(a0 := StatusWord(e)) else s
  }

  /** p is in the queue, with s as its state. */
  ghost predicate WaitsWith(k: K, key: Key, p: nat, s: PState) {
    p in Queue(k, key) && p < |k.pcb| && k.pcb[p].ps == s
  }

  ghost predicate ReadyWith(k: K, p: nat, s: PState) {
    p in k.ready && p < |k.pcb| && k.pcb[p].ps == s
  }

  // ---------------------------------------------------------------- one step

  /** The steps that wake processes. */
  predicate Wakes(e: Event) {
    e.PE? || e.VE? || e.TickE? || e.InterruptE?
  }

  /** What one step makes of a process off the CPUs whose saved state is s: a ready one stays ready, unless
    * it is dispatched; a waiting one stays or is woken by a step on its semaphore, as the first in the queue
    * or by the clock. */
  ghost predicate Moves(k: K, e: Event, k': K, p: nat, s: PState) {
    && (ReadyWith(k, p, s) && !Dispatched(e, k', p) ==> ReadyWith(k', p, s))
    && (forall key :: WaitsWith(k, key, p, s) ==>
          || WaitsWith(k', key, p, s)
          || (ReadyWith(k', p, After(s, e)) && Touches(e) == Some(key) && Wakes(e)
              && (e.TickE? || Queue(k, key)[0] == p)))
  }

  /** p is in one queue at most, and on no CPU. */
  ghost predicate Queued(k: K, p: nat) {
    && p !in k.free && p < |k.pcb|
    && (forall c :: 0 <= c < |k.running| ==> k.running[c] != Some(p))
    && (forall key :: p in Queue(k, key) ==> p !in k.ready && forall other :: p in Queue(k, other) ==> other == key)
    && (forall key :: ListX.NoDup(Queue(k, key)))
    && ListX.NoDup(k.ready)
  }

  lemma BlockMoves(k: K, e: Event, k': K, cpu: nat, key: Key, p: nat, s: PState, st: PState)
    requires Blocked(k, cpu, key, st, k') && Queued(k, p)
    ensures Moves(k, e, k', p, s)
  {
    assert k.running[cpu].value != p;
    forall other | WaitsWith(k, other, p, s) ensures WaitsWith(k', other, p, s) {
    }
  }

  lemma StayMoves(k: K, e: Event, k': K, p: nat, s: PState)
    requires k.ready <= k'.ready && SameQueues(k, k')
    requires p < |k.pcb| == |k'.pcb| && k'.pcb[p].ps == k.pcb[p].ps
    ensures Moves(k, e, k', p, s)
  {
    assert p in k.ready ==> p in k'.ready;
    forall key | WaitsWith(k, key, p, s) ensures WaitsWith(k', key, p, s) {
    }
  }

  lemma WokeMoves(k: K, e: Event, k': K, key: Key, p: nat, s: PState)
    requires Woke(k, key, k') && Queued(k, p) && (e.PE? || e.VE?) && Touches(e) == Some(key)
    ensures Moves(k, e, k', p, s)
  {
    hide Touches;
    var q := Queue(k, key);
    assert p in k.ready ==> p in k'.ready;
    assert p in q && p !in q[1..] ==> q[0] == p;
    forall other | WaitsWith(k, other, p, s) && other != key ensures WaitsWith(k', other, p, s) {
    }
  }

  lemma SignalMoves(k: K, e: Event, k': K, d: Devices.SubDevice, p: nat, s: PState)
    requires e.InterruptE? && Devices.IsSubDevice(d) && Devices.Signalled(k, d, StatusWord(e), k') && Queued(k, p)
    requires Touches(e) == Some(Dev(IndexOf(Devices.CommandAddress(d))))
    ensures Moves(k, e, k', p, s)
  {
    hide Touches, FindDeviceIndex;
    var key := Dev(IndexOf(Devices.CommandAddress(d)));
    var q := Queue(k, key);
    assert p in k.ready ==> p in k'.ready;
    assert q != [] ==> q[0] in q;
    assert p in q && p !in q[1..] ==> q[0] == p;
    assert q != [] && q[0] != p ==> k'.pcb[p] == k.pcb[p];
    forall other | WaitsWith(k, other, p, s) && other != key ensures WaitsWith(k', other, p, s) {
    }
  }

  lemma TickMoves(k: K, e: Event, k': K, p: nat, s: PState)
    requires e.TickE? && TickSpec(k, k') && Queued(k, p)
    ensures Moves(k, e, k', p, s)
  {
    assert p in k.ready ==> p in k'.ready;
    forall other | WaitsWith(k, other, p, s) && other != Dev(PSEUDOCLOCK) ensures WaitsWith(k', other, p, s) {
    }
  }

  lemma SchedMoves(k: K, e: Event, k': K, p: nat, s: PState)
    requires e.SchedE? && SchedSpec(k, e.cpu, k')
    ensures Moves(k, e, k', p, s)
  {
    if ReadyWith(k, p, s) && !Dispatched(e, k', p) {
      assert k.ready == [k.ready[0]] + k.ready[1..];
    }
    forall key | WaitsWith(k, key, p, s) ensures WaitsWith(k', key, p, s) {
    }
  }

  lemma InterruptMoves(k: K, e: Event, k': K, p: nat, s: PState)
    requires e.InterruptE? && 3 <= e.line <= 7 && e.dev < 8 && Queued(k, p)
    requires Devices.InterruptSpec(k, e.line, e.dev, e.reg0, e.reg2, k')
    ensures Moves(k, e, k', p, s)
  {
    hide Devices.Signalled, Touches, Moves;
    Devices.InterruptTouches(e);
    var d := Devices.SignalledDevice(e.line, e.dev, e.reg0, e.reg2);
    if d.None? {
      StayMoves(k, e, k', p, s);
    } else {
      SignalMoves(k, e, k', d.value, p, s);
    }
  }

  lemma TermMoves(k: K, e: Event, k': K, p: nat, s: PState)
    requires Inv(k) && Bounded(k) && Next(k, e, k') && e.TermE? && Exactness.OffCpus(k, p) && p !in k'.free
    ensures Moves(k, e, k', p, s)
  {
    hide Inv, Guarded, Subtree, Detached, IsTarget, Touches;
    var t :| IsTarget(k, e.cpu, e.pid, t) && Terminates(k, e.cpu, t, k');
    if t.Some? {
      var S := Subtree(k, t.value);
      Exactness.TargetOffCpus(k, e.cpu, e.pid, t);
      Exactness.TreeIsFreed(k, e.cpu, t.value, k');
      assert p !in S;
      KernelTerm.WithoutMembers(k.ready, S);
      forall key | WaitsWith(k, key, p, s) ensures WaitsWith(k', key, p, s) {
        KernelTerm.WithoutMembers(k.blocked[key], S);
      }
    }
  }

  lemma OffCpusIsQueued(k: K, p: nat)
    requires Inv(k) && Bounded(k) && Exactness.OffCpus(k, p)
    ensures Queued(k, p)
  {
    hide Inv;
    EveryPcbInOnePlace(k, p);
    forall key | p in Queue(k, key)
      ensures p !in k.ready && forall other :: p in Queue(k, other) ==> other == key
    {
      Exactness.NotTwice(k, p, InQueue(key), InReady);
      forall other | p in Queue(k, other) ensures other == key {
        Exactness.NotTwice(k, p, InQueue(key), InQueue(other));
      }
    }
  }

  lemma StepMoves(k: K, e: Event, k': K, p: nat, s: PState)
    requires Inv(k) && Bounded(k) && Next(k, e, k') && Exactness.OffCpus(k, p) && p !in k'.free
    ensures Moves(k, e, k', p, s)
  {
    StepIs(k, e, k');
    OffCpusIsQueued(k, p);
    if e.TermE? {
      TermMoves(k, e, k', p, s);
    } else {
      NextEnabled(k, e, k');
      SpecMoves(k, e, k', p, s);
    }
  }

  lemma NextEnabled(k: K, e: Event, k': K)
    requires Bounded(k) && Next(k, e, k')
    ensures e.cpu < NCPU && Shape(k)
  {
  }

  lemma SpecMoves(k: K, e: Event, k': K, p: nat, s: PState)
    requires Shape(k) && e.cpu < NCPU && StepSpec(k, e, k') && Queued(k, p) && !e.TermE?
    ensures Moves(k, e, k', p, s)
  {
    hide Moves, Blocked, Woke, TickSpec, SchedSpec, Devices.InterruptSpec, IndexOf, HasSemaphore;
    match e {
      case CreateE(cpu, st) => CreateMoves(k, e, k', p, s);
      case PE(cpu, key, st) =>
        var v := Get(k.val, key);
        if v <= 0 {
          BlockMoves(k, e, k', cpu, key, p, s, st);
        } else if v == 1 {
          StayMoves(k, e, k', p, s);
        } else {
          WokeMoves(k, e, k', key, p, s);
        }
      case VE(cpu, key, st) =>
        var v := Get(k.val, key);
        if v >= 1 {
          BlockMoves(k, e, k', cpu, key, p, s, st);
        } else if v == 0 {
          StayMoves(k, e, k', p, s);
        } else {
          WokeMoves(k, e, k', key, p, s);
        }
      case DoIOE(cpu, addr, st) => BlockMoves(k, e, k', cpu, Dev(IndexOf(addr)), p, s, st);
      case ClockWaitE(cpu, st) => BlockMoves(k, e, k', cpu, Dev(PSEUDOCLOCK), p, s, st);
      case PltE(cpu, st) => PltMoves(k, e, k', p, s);
      case TickE(_) => TickMoves(k, e, k', p, s);
      case InterruptE(_, line, dev, reg0, reg2) => InterruptMoves(k, e, k', p, s);
      case SchedE(cpu) => SchedMoves(k, e, k', p, s);
      case _ =>
    }
  }

  lemma CreateMoves(k: K, e: Event, k': K, p: nat, s: PState)
    requires Shape(k) && e.cpu < NCPU && e.CreateE? && StepSpec(k, e, k') && Queued(k, p)
    ensures Moves(k, e, k', p, s)
  {
    hide Moves;
    if k.free != [] {
      assert k.free[0] in k.free;
    }
    StayMoves(k, e, k', p, s);
  }

  lemma PltMoves(k: K, e: Event, k': K, p: nat, s: PState)
    requires e.PltE? && PltSpec(k, e.cpu, e.st, k') && Queued(k, p)
    ensures Moves(k, e, k', p, s)
  {
    hide Moves;
    StayMoves(k, e, k', p, s);
  }

  lemma QueuedOffCpus(k: K, p: nat)
    requires Inv(k) && Bounded(k) && (p in k.ready || exists key :: p in Queue(k, key))
    ensures Exactness.OffCpus(k, p) && Queued(k, p)
  {
    hide Inv;
    if p in k.ready {
    } else {
      var key :| p in Queue(k, key);
      QueueKnown(k, key);
      assert key in k.blocked && p in k.blocked[key];
    }
    Exactness.OffCpusQueued(k, p);
    OffCpusIsQueued(k, p);
  }

  /** Who leaves a CPU goes to the end of the ready queue, or of the queue of the semaphore of the call, and its
    * state is saved. */
  lemma LeavingSaves(k: K, e: Event, k': K, p: nat, s: PState)
    requires Inv(k) && Bounded(k) && Next(k, e, k') && Leaves(k, e, k', p, s)
    ensures e.PltE? ==> ReadyWith(k', p, s)
    ensures !e.PltE? ==> Touches(e).Some? && WaitsWith(k', Touches(e).value, p, s)
  {
    hide Inv, Next, Queue, IndexOf, HasSemaphore;
    NextEnabled(k, e, k');
    StepIs(k, e, k');
  }

  /** Scheduler puts the first ready process on the CPU. */
  lemma DispatchedWasReady(k: K, e: Event, k': K, p: nat)
    requires Inv(k) && Bounded(k) && Next(k, e, k') && Dispatched(e, k', p)
    ensures p in k.ready
  {
    hide Inv;
  }

  // ---------------------------------------------------------------- runs

  /** Event es[t] ends the wait that es[n] began: the timer's at once, otherwise an operation on the same
    * semaphore, in whose queue p has been since, for the first waiter or, from the clock, for all. */
  ghost predicate Ends(ks: seq<K>, es: seq<Event>, p: nat, n: nat, t: nat)
    requires n <= t < |es| < |ks|
  {
    if es[n].PltE? then t == n
    else
      && n < t && Touches(es[n]).Some? && Touches(es[t]) == Touches(es[n]) && Wakes(es[t])
      && (forall r :: n < r <= t ==> p in Queue(ks[r], Touches(es[n]).value))
      && (es[t].TickE? || Queue(ks[t], Touches(es[n]).value)[0] == p)
  }

  ghost predicate StillWaits(ks: seq<K>, es: seq<Event>, p: nat, s: PState, n: nat, m: nat)
    requires n < m <= |es| < |ks|
  {
    && !es[n].PltE? && Touches(es[n]).Some? && WaitsWith(ks[m], Touches(es[n]).value, p, s)
    && (forall r :: n < r <= m ==> p in Queue(ks[r], Touches(es[n]).value))
  }

  ghost predicate ReadyAgain(ks: seq<K>, es: seq<Event>, p: nat, s: PState, n: nat, m: nat)
    requires n < m <= |es| < |ks|
  {
    exists t :: n <= t < m && Ends(ks, es, p, n, t) && ReadyWith(ks[m], p, After(s, es[t]))
  }

  /** From the step that takes p off its CPU up to its next dispatch, it waits with its saved state, or is
    * ready with it. */
  lemma {:induction false} Whereabouts(ks: seq<K>, es: seq<Event>, p: nat, s: PState, n: nat, m: nat)
    requires Run(ks, es) && n < m <= |es|
    requires Leaves(ks[n], es[n], ks[n + 1], p, s) && Aside(ks, es, p, n, m)
    ensures StillWaits(ks, es, p, s, n, m) || ReadyAgain(ks, es, p, s, n, m)
  {
    hide Inv, Next, Bounded, Queue, Touches, After, Leaves, WaitsWith, ReadyWith, Dispatched;
    var l := m - 1;
    RunStep(ks, es, l);
    if l == n {
      LeavingSaves(ks[n], es[n], ks[m], p, s);
      JustLeft(ks, es, p, s, n);
    } else {
      Whereabouts(ks, es, p, s, n, l);
      StepOnward(ks, es, p, s, n, l);
    }
  }

  lemma JustLeft(ks: seq<K>, es: seq<Event>, p: nat, s: PState, n: nat)
    requires n < |es| < |ks|
    requires es[n].PltE? ==> ReadyWith(ks[n + 1], p, s)
    requires !es[n].PltE? ==> Touches(es[n]).Some? && WaitsWith(ks[n + 1], Touches(es[n]).value, p, s)
    ensures StillWaits(ks, es, p, s, n, n + 1) || ReadyAgain(ks, es, p, s, n, n + 1)
  {
    hide Queue, Touches;
    if es[n].PltE? {
      assert Ends(ks, es, p, n, n) && After(s, es[n]) == s;
    }
  }

  lemma StepOnward(ks: seq<K>, es: seq<Event>, p: nat, s: PState, n: nat, m: nat)
    requires n < m < |es| < |ks| && (StillWaits(ks, es, p, s, n, m) || ReadyAgain(ks, es, p, s, n, m))
    requires Inv(ks[m]) && Bounded(ks[m]) && Next(ks[m], es[m], ks[m + 1])
    requires p !in ks[m + 1].free && !Dispatched(es[m], ks[m + 1], p)
    ensures StillWaits(ks, es, p, s, n, m + 1) || ReadyAgain(ks, es, p, s, n, m + 1)
  {
    hide Inv, Next, Bounded, Queue, Touches, After, Dispatched;
    QueuedOffCpus(ks[m], p);
    if StillWaits(ks, es, p, s, n, m) {
      StepMoves(ks[m], es[m], ks[m + 1], p, s);
      var key := Touches(es[n]).value;
      if !WaitsWith(ks[m + 1], key, p, s) {
        assert Ends(ks, es, p, n, m);
      }
    } else {
      var t :| n <= t < m && Ends(ks, es, p, n, t) && ReadyWith(ks[m], p, After(s, es[t]));
      StepMoves(ks[m], es[m], ks[m + 1], p, After(s, es[t]));
    }
  }

  /** A process resumes in the state in which it left its CPU.  If step n took p off its CPU in state s, and
    * step m is its next dispatch, p not being terminated in between, then Scheduler loads s, where a0 is
    * replaced by the status if, and only if, it was an interrupt that woke p. */
  lemma ResumesWhereItLeft(ks: seq<K>, es: seq<Event>, p: nat, s: PState, n: nat, m: nat) returns (t: nat)
    requires Run(ks, es) && n < m < |es|
    requires Leaves(ks[n], es[n], ks[n + 1], p, s) && Aside(ks, es, p, n, m) && Dispatched(es[m], ks[m + 1], p)
    ensures n <= t < m && Ends(ks, es, p, n, t) && p < |ks[m].pcb|
    ensures ks[m].pcb[p].ps == if es[t].InterruptE? then s.(a0 := StatusWord(es[t])) else s
  {
    hide Inv, Next, Bounded, Queue, Touches, Leaves, Dispatched, StatusWord, Ends;
    Whereabouts(ks, es, p, s, n, m);
    RunStep(ks, es, m);
    DispatchedWasReady(ks[m], es[m], ks[m + 1], p);
    QueuedOffCpus(ks[m], p);
    t :| n <= t < m && Ends(ks, es, p, n, t) && ReadyWith(ks[m], p, After(s, es[t]));
  }

  /** Preemption and waiting for anything but a device leave no trace in the saved state. */
  lemma ResumesUnchanged(ks: seq<K>, es: seq<Event>, p: nat, s: PState, n: nat, m: nat)
    requires Run(ks, es) && n < m < |es|
    requires Leaves(ks[n], es[n], ks[n + 1], p, s) && Aside(ks, es, p, n, m) && Dispatched(es[m], ks[m + 1], p)
    requires es[n].PltE? || es[n].ClockWaitE? || Touches(es[n]).value.User?
    ensures p < |ks[m].pcb| && ks[m].pcb[p].ps == s
  {
    hide Inv, Next, Bounded, Queue, Leaves, Dispatched, Aside, HasSemaphore, IndexOf;
    var t := ResumesWhereItLeft(ks, es, p, s, n, m);
    if es[t].InterruptE? {
      RunStep(ks, es, t);
      InterruptTouchesDevice(ks[t], es[t], ks[t + 1]);
    }
  }

  lemma InterruptTouchesDevice(k: K, e: Event, k': K)
    requires Bounded(k) && Next(k, e, k') && e.InterruptE? && Touches(e).Some?
    ensures Touches(e).value.Dev? && Touches(e).value.index < PSEUDOCLOCK
  {
    hide FindDeviceIndex, Interrupt;
    Devices.InterruptTouches(e);
    Devices.IndexOfCommand(Devices.SignalledDevice(e.line, e.dev, e.reg0, e.reg2).value);
  }

  lemma RunningNotQueued(k: K, cpu: nat, key: Key)
    requires Inv(k) && Bounded(k) && cpu < NCPU && k.running[cpu].Some?
    ensures k.running[cpu].value !in Queue(k, key)
  {
    hide Inv;
    Exactness.NotTwice(k, k.running[cpu].value, OnCpu(cpu), InQueue(key));
  }

  /** A process that waited for a device resumes in the state of its call, but for the result: the status of
    * the interrupt that answered this very call. */
  lemma ResumesWithStatus(ks: seq<K>, es: seq<Event>, p: nat, s: PState, n: nat, m: nat, i: nat) returns (t: nat)
    requires Devices.DeviceRun(ks, es, i) && n < m < |es| && Devices.Calls(es[n], i)
    requires Leaves(ks[n], es[n], ks[n + 1], p, s) && Aside(ks, es, p, n, m) && Dispatched(es[m], ks[m + 1], p)
    ensures n < t < m && Devices.Interrupts(es[t], i) && p < |ks[m].pcb|
    ensures Devices.WaitingCalls(ks, es, t, i) != [] && Devices.WaitingCalls(ks, es, t, i)[0] == n
    ensures ks[m].pcb[p].ps == s.(a0 := StatusWord(es[t]))
  {
    hide Inv, Next, Bounded, Queue, Dispatched, Aside, HasSemaphore, IndexOf, InterruptKey;
    t := ResumesWhereItLeft(ks, es, p, s, n, m);
    Devices.DevicesAreFifo(ks, es, t, i);
    assert p in Queue(ks[t], Dev(i));
    AnswersThisCall(ks, es, p, n, t, i);
  }

  /** The first waiting call is the one whose caller is the first waiter. */
  lemma AnswersThisCall(ks: seq<K>, es: seq<Event>, p: nat, n: nat, t: nat, i: nat)
    requires Run(ks, es) && n < t < |es| && Devices.Calls(es[n], i) && Devices.FifoLaw(ks, es, t, i)
    requires forall r :: n < r <= t ==> p in Queue(ks[r], Dev(i))
    requires Queue(ks[t], Dev(i))[0] == p && Devices.Caller(ks, es, n) == p
    ensures Devices.WaitingCalls(ks, es, t, i) != [] && Devices.WaitingCalls(ks, es, t, i)[0] == n
  {
    hide Inv, Next, Bounded, Queue, Devices.Calls, Devices.Caller, Devices.ServedCalls, Devices.WaitingCalls;
    var w := Devices.WaitingCalls(ks, es, t, i);
    assert p in Queue(ks[t], Dev(i));
    assert Devices.Aligned(ks, es, t, i, w);
    var a := w[0];
    assert Devices.Pending(ks, es, a, t, i);
    CallerRuns(ks, es, n, i);
    CallerRuns(ks, es, a, i);
  }

  lemma CallerRuns(ks: seq<K>, es: seq<Event>, n: nat, i: nat)
    requires Run(ks, es) && n < |es| && Devices.Calls(es[n], i)
    ensures Devices.Caller(ks, es, n) !in Queue(ks[n], Dev(i))
  {
    hide Inv, Queue, IndexOf, HasSemaphore;
    RunStep(ks, es, n);
    RunningNotQueued(ks[n], es[n].cpu, Dev(i));
  }

  /** A process that waits for the clock is ready right after the next tick, in the state of its call. */
  lemma ClockWaitEndsAtNextTick(ks: seq<K>, es: seq<Event>, p: nat, s: PState, n: nat, m: nat)
    requires Run(ks, es) && n < m < |es| && es[n].ClockWaitE? && es[m].TickE?
    requires Leaves(ks[n], es[n], ks[n + 1], p, s) && Aside(ks, es, p, n, m)
    requires forall r :: n < r < m ==> !(Wakes(es[r]) && Touches(es[r]) == Some(Dev(PSEUDOCLOCK)))
    ensures forall r :: n < r <= m ==> p in Queue(ks[r], Dev(PSEUDOCLOCK))
    ensures ReadyWith(ks[m + 1], p, s)
  {
    hide Inv, Next, Bounded, Queue, Leaves, Dispatched, Aside;
    Whereabouts(ks, es, p, s, n, m);
    RunStep(ks, es, m);
    StepIs(ks[m], es[m], ks[m + 1]);
  }

  // ---------------------------------------------------------------- the first dispatch

  /** A ready process keeps its state until it is dispatched. */
  lemma {:induction false} StartsWith(ks: seq<K>, es: seq<Event>, p: nat, s: PState, n: nat, m: nat)
    requires Run(ks, es) && n <= m <= |es| && ReadyWith(ks[n], p, s)
    requires forall r :: n < r <= m ==> p !in ks[r].free
    requires forall r :: n <= r < m ==> !Dispatched(es[r], ks[r + 1], p)
    ensures ReadyWith(ks[m], p, s)
  {
    hide Inv, Next, Bounded, Dispatched;
    if m > n {
      var l := m - 1;
      StartsWith(ks, es, p, s, n, l);
      RunStep(ks, es, l);
      QueuedOffCpus(ks[l], p);
      StepMoves(ks[l], es[l], ks[m], p, s);
    }
  }

  /** A new process starts in the state given to CREATEPROCESS: its PCB q was free, its pid is new, it is the
    * last one ready and the first child of the caller, and unless it is terminated before, its first
    * dispatch loads that state. */
  lemma CreatedStartsInGivenState(ks: seq<K>, es: seq<Event>, n: nat, m: nat) returns (q: nat)
    requires Run(ks, es) && n < m < |es| && es[n].CreateE? && ks[n].free != []
    ensures Shape(ks[n]) && es[n].cpu < NCPU && ks[n].running[es[n].cpu].Some?
    ensures q in ks[n].free && q < MAXPROC && CreateSpec(ks[n], es[n].cpu, es[n].st, ks[n].nextPid, ks[n + 1])
    ensures ks[n + 1].ready == ks[n].ready + [q]
    ensures Aside(ks, es, q, n, m) && Dispatched(es[m], ks[m + 1], q) ==>
      q < |ks[m].pcb| && ks[m].pcb[q].ps == es[n].st
  {
    hide Inv, Next, Bounded, Dispatched;
    RunStep(ks, es, n);
    StepIs(ks[n], es[n], ks[n + 1]);
    NextEnabled(ks[n], es[n], ks[n + 1]);
    CreatorRuns(ks[n], es[n], ks[n + 1]);
    q := ks[n].free[0];
    if Aside(ks, es, q, n, m) {
      StartsWith(ks, es, q, es[n].st, n + 1, m);
    }
  }

  lemma CreatorRuns(k: K, e: Event, k': K)
    requires Bounded(k) && Next(k, e, k') && e.CreateE?
    ensures e.cpu < NCPU && k.running[e.cpu].Some? && forall q :: q in k.free ==> q < MAXPROC
  {
  }

  /** The first dispatch of the first process loads the state main gave it. */
  lemma FirstProcessStartsInGivenState(ks: seq<K>, es: seq<Event>, p: nat, s: PState, m: nat)
    requires Run(ks, es) && m < |es| && BootSpec(ks[0], s) && ks[0].ready == [p]
    requires Dispatched(es[m], ks[m + 1], p) && forall r :: 0 <= r < m ==> !Dispatched(es[r], ks[r + 1], p)
    requires forall r :: 0 < r <= m ==> p !in ks[r].free
    ensures p < |ks[m].pcb| && ks[m].pcb[p].ps == s
  {
    hide Inv, Next, Bounded, Dispatched;
    var q :| OnlyProcess(ks[0], q, s);
    assert ks[0].ready[0] == q;
    StartsWith(ks, es, p, s, 0, m);
  }
}
