/** phase3/initProc.c: getMutex, releaseMutex and releaseAllMutex on one supSem, interleaved at the
  * granularity of single P, V and holder_pid accesses.  Any process may call either function at any
  * time it is not already inside a call; releaseAllMutex is one release call on each mutex. */
module Mutex {
  import Semaphores

  /** Where a process is: outside the two functions, blocked in the P, past the P but not yet past the
    * write of holder_pid, past the test of holder_pid, blocked in the V, past the V. */
  datatype Phase = Outside | InP | Granted | Tested | InV | Signalled

  datatype State = State(
    value: int,              // sem->value
    queue: seq<nat>,         // processes blocked on it
    holder: int,             // sem->holder_pid
    phase: map<nat, Phase>,  // by pid
    inside: multiset<nat>)   // history: granted its P and not yet past its V

  datatype Event =
    | CallP(pid: nat)        // getMutex: SYSCALL(PASSEREN)
    | WriteHolder(pid: nat)  // getMutex: holder_pid = pid
    | Test(pid: nat)         // releaseMutex: if (pid != holder_pid) return
    | CallV(pid: nat)        // releaseMutex: SYSCALL(VERHOGEN)
    | Clear(pid: nat)        // releaseMutex: holder_pid = -1

  predicate Enabled(s: State, e: Event) {
    && e.pid in s.phase
    && match e
       case CallP(p) => s.phase[p] == Outside
       case WriteHolder(p) => s.phase[p] == Granted
       case Test(p) => s.phase[p] == Outside
       case CallV(p) => s.phase[p] == Tested
       case Clear(p) => s.phase[p] == Signalled
  }

  /** A process taken off the queue returns from the system call it was blocked in. */
  function Resume(s: State, p: nat): State
    requires p in s.phase
  {
    if s.phase[p] == InV then s.(phase := s.phase[p := Signalled], inside := s.inside - multiset{p})
    else s.(phase := s.phase[p := Granted], inside := s.inside + multiset{p})
  }

  /** One step; the semaphore's value and queue change as the nucleus changes them. */
  function Step(s: State, e: Event): State
    requires Enabled(s, e)
    requires forall p :: p in s.queue ==> p in s.phase
  {
    match e
    case CallP(p) =>
      var q' := Semaphores.PQueue(s.value, s.queue, p);
      var s1 := s.(value := s.value - 1, queue := q');
      if s.value <= 0 then s1.(phase := s.phase[p := InP])
      else
        var s2 := s1.(phase := s.phase[p := Granted], inside := s.inside + multiset{p});
        if |q'| < |s.queue| then assert s.queue[0] in s.queue; Resume(s2, s.queue[0]) else s2
    case WriteHolder(p) => s.(holder := p, phase := s.phase[p := Outside])
    case Test(p) => if p != s.holder then s else s.(phase := s.phase[p := Tested])
    case CallV(p) =>
      var q' := Semaphores.VQueue(s.value, s.queue, p);
      var s1 := s.(value := s.value + 1, queue := q');
      if s.value >= 1 then s1.(phase := s.phase[p := InV])
      else
        var s2 := s1.(phase := s.phase[p := Signalled], inside := s.inside - multiset{p});
        if |q'| < |s.queue| then assert s.queue[0] in s.queue; Resume(s2, s.queue[0]) else s2
    case Clear(p) => s.(holder := -1, phase := s.phase[p := Outside])
  }

  predicate Init(s: State) {
    && s.value == 1 && s.queue == [] && s.holder == -1 && s.inside == multiset{}
    && forall p :: p in s.phase ==> s.phase[p] == Outside
  }

  // ---------------------------------------------------------------- the invariant

  ghost predicate Inv(s: State) {
    // the semaphore counts the process inside and the ones waiting
    && s.value == 1 - |s.inside| - |s.queue|
    && |s.inside| <= 1
    && (s.queue != [] ==> |s.inside| == 1)
    // the queue holds exactly the processes blocked in a P
    && (forall p :: p in s.queue ==> p in s.phase && s.phase[p] == InP)
    && (forall i, j :: 0 <= i < |s.queue| && 0 <= j < |s.queue| && s.queue[i] == s.queue[j] ==> i == j)
    && (forall p :: p in s.phase && s.phase[p] == InP ==> p in s.queue)
    && (forall p :: p in s.phase ==> s.phase[p] != InV)
    // who has passed the P, or the test, is inside; who is named by holder_pid is inside or leaving
    && (forall p :: p in s.phase && (s.phase[p] == Granted || s.phase[p] == Tested) ==> p in s.inside)
    && (forall p :: p in s.phase && s.holder == p && s.phase[p] != Signalled ==> p in s.inside && s.phase[p] != Granted)
    && (forall p :: p in s.phase && s.phase[p] == Signalled ==> p !in s.inside)
  }

  lemma InitInv(s: State)
    requires Init(s)
    ensures Inv(s)
  {
  }

  lemma OnlyOne(m: multiset<nat>, p: nat)
    requires p in m && |m| <= 1
    ensures m == multiset{p} && |m| == 1
  {
    assert m == (m - multiset{p}) + multiset{p};
    assert |m| == |m - multiset{p}| + 1;
  }

  lemma StepInv(s: State, e: Event)
    requires Inv(s) && Enabled(s, e)
    ensures Inv(Step(s, e))
  {
    match e {
      case CallP(p) => CallPInv(s, p);
      case CallV(p) => CallVInv(s, p);
      case WriteHolder(p) => OnlyOne(s.inside, p);
      case Test(p) =>
      case Clear(p) =>
    }
  }

  lemma CallPInv(s: State, p: nat)
    requires Inv(s) && Enabled(s, CallP(p))
    ensures Inv(Step(s, CallP(p)))
  {
    var s' := Step(s, CallP(p));
    if s.value <= 0 {
      assert forall x :: x in s'.queue <==> x in s.queue || x == p;
    } else {
      assert s.inside == multiset{};
      assert multiset{} + multiset{p} == multiset{p};
    }
  }

  lemma CallVInv(s: State, p: nat)
    requires Inv(s) && Enabled(s, CallV(p))
    ensures s.value <= 0 && p in s.inside
    ensures Inv(Step(s, CallV(p)))
  {
    OnlyOne(s.inside, p);
    var s', q := Step(s, CallV(p)), s.queue;
    assert s.inside - multiset{p} == multiset{};
    if q != [] {
      assert q[0] in q;
      assert multiset{} + multiset{q[0]} == multiset{q[0]};
      assert forall x :: x in q ==> x == q[0] || x in q[1..];
      assert forall i :: 0 <= i < |q| - 1 ==> q[1..][i] == q[i + 1];
    }
  }

  // ---------------------------------------------------------------- runs

  ghost predicate Run(ss: seq<State>, es: seq<Event>) {
    && |ss| == |es| + 1
    && Init(ss[0])
    && forall i :: 0 <= i < |es| ==> StepTo(ss[i], es[i], ss[i + 1])
  }

  ghost predicate StepTo(s: State, e: Event, s': State) {
    Enabled(s, e) && (forall p :: p in s.queue ==> p in s.phase) && s' == Step(s, e)
  }

  lemma {:induction false} RunInv(ss: seq<State>, es: seq<Event>, n: nat)
    requires Run(ss, es) && n < |ss|
    ensures Inv(ss[n])
  {
    if n == 0 {
      InitInv(ss[0]);
    } else {
      RunInv(ss, es, n - 1);
      assert StepTo(ss[n - 1], es[n - 1], ss[n]);
      StepInv(ss[n - 1], es[n - 1]);
    }
  }

  /** Under every interleaving: at most one process is between its granted P and its V; a process that
    * reaches the V of releaseMutex was granted the mutex; and that V never blocks. */
  lemma MutualExclusion(ss: seq<State>, es: seq<Event>, n: nat)
    requires Run(ss, es) && n < |ss|
    ensures |ss[n].inside| <= 1
    ensures n < |es| && es[n].CallV? ==> es[n].pid in ss[n].inside && es[n].pid in ss[n + 1].phase
                                         && ss[n + 1].phase[es[n].pid] == Signalled && es[n].pid !in ss[n + 1].inside
  {
    RunInv(ss, es, n);
    if n < |es| && es[n].CallV? {
      assert StepTo(ss[n], es[n], ss[n + 1]);
      CallVInv(ss[n], es[n].pid);
      RunInv(ss, es, n + 1);
    }
  }

  // ---------------------------------------------------------------- when a release takes effect

  predicate SomeClear(es: seq<Event>, i: nat, j: nat)
    requires j <= |es|
  {
    exists m :: i <= m < j && es[m].Clear?
  }

  lemma {:induction false} HolderWhileInside(ss: seq<State>, es: seq<Event>, p: nat, i: nat, j: nat)
    requires Run(ss, es) && i < j < |ss|
    requires es[i] == WriteHolder(p) && forall m :: i < m <= j ==> p in ss[m].inside
    ensures p in ss[j].phase
    ensures ss[j].holder == (if SomeClear(es, i + 1, j) then -1 else p)
  {
    hide Inv, Enabled, Step;
    var n := j - 1;
    assert StepTo(ss[n], es[n], ss[n + 1]);
    if n == i {
      WriterKnown(ss[i], p);
    } else {
      RunInv(ss, es, n);
      RewriteIsIdle(ss, es, p, i, n);
      HolderWhileInside(ss, es, p, i, n);
      HolderStep(ss[n], es[n], p);
      assert SomeClear(es, i + 1, j) <==> SomeClear(es, i + 1, n) || es[n].Clear?;
    }
  }

  lemma WriterKnown(s: State, p: nat)
    requires Enabled(s, WriteHolder(p)) && forall q :: q in s.queue ==> q in s.phase
    ensures p in Step(s, WriteHolder(p)).phase && Step(s, WriteHolder(p)).holder == p
  {
  }

  /** While the one inside is not about to write holder_pid, only a clearing changes it. */
  lemma HolderStep(s: State, e: Event, p: nat)
    requires Inv(s) && Enabled(s, e) && p in s.inside && p in s.phase && s.phase[p] != Granted
    ensures p in Step(s, e).phase
    ensures Step(s, e).holder == if e.Clear? then -1 else s.holder
  {
    hide Semaphores.PQueue, Semaphores.VQueue;
    OnlyOne(s.inside, p);
  }

  lemma StaysIdle(s: State, e: Event, p: nat)
    requires Inv(s) && Enabled(s, e) && p in s.inside && p in Step(s, e).inside
    requires p in s.phase && s.phase[p] != Granted
    ensures p in Step(s, e).phase && Step(s, e).phase[p] != Granted
  {
    OnlyOne(s.inside, p);
    match e {
      case CallP(q) =>
      case CallV(q) => CallVInv(s, q); StepInv(s, e); OnlyOne(s.inside, q);
      case _ =>
    }
  }

  /** While p stays inside after writing holder_pid, it is not about to write it again. */
  lemma {:induction false} RewriteIsIdle(ss: seq<State>, es: seq<Event>, p: nat, i: nat, j: nat)
    requires Run(ss, es) && i < j < |ss|
    requires es[i] == WriteHolder(p) && forall m :: i < m <= j ==> p in ss[m].inside
    ensures p in ss[j].phase && ss[j].phase[p] != Granted
  {
    hide Inv, Enabled;
    RunInv(ss, es, j - 1);
    assert StepTo(ss[j - 1], es[j - 1], ss[j]);
    if j > i + 1 {
      hide Step;
      RewriteIsIdle(ss, es, p, i, j - 1);
      StaysIdle(ss[j - 1], es[j - 1], p);
    }
  }

  /** Somebody is inside, but holder_pid names nobody and nobody is about to write it. */
  ghost predicate Stuck(s: State) {
    && Inv(s) && s.holder == -1 && s.inside != multiset{}
    && forall p :: p in s.phase ==> s.phase[p] == Outside || s.phase[p] == InP || s.phase[p] == Signalled
  }

  lemma StuckStep(s: State, e: Event)
    requires Stuck(s) && Enabled(s, e)
    ensures Stuck(Step(s, e)) && Step(s, e).inside == s.inside
  {
    hide Semaphores.VQueue;
    StepInv(s, e);
    var p :| p in s.inside;
    OnlyOne(s.inside, p);
  }

  /** From then on, whatever the processes do, nobody enters and nobody leaves, and whoever calls
    * getMutex waits for good. */
  lemma {:induction false} StuckForever(ss: seq<State>, es: seq<Event>, n: nat)
    requires |ss| == |es| + 1 && n < |ss| && Stuck(ss[0])
    requires forall i :: 0 <= i < |es| ==> StepTo(ss[i], es[i], ss[i + 1])
    ensures Stuck(ss[n]) && ss[n].inside == ss[0].inside
    ensures forall p, i :: 0 <= i < n && es[i] == CallP(p) ==> p in ss[n].phase && ss[n].phase[p] == InP
  {
    hide Stuck, Enabled, Step;
    if n > 0 {
      var m := n - 1;
      StuckForever(ss, es, m);
      assert StepTo(ss[m], es[m], ss[m + 1]);
      StuckStep(ss[m], es[m]);
      forall p, i | 0 <= i < n && es[i] == CallP(p) ensures p in ss[n].phase && ss[n].phase[p] == InP {
        StuckWaits(ss[m], es[m], p);
      }
    }
  }

  lemma StuckWaits(s: State, e: Event, p: nat)
    requires Stuck(s) && Enabled(s, e) && (e == CallP(p) || (p in s.phase && s.phase[p] == InP))
    ensures p in Step(s, e).phase && Step(s, e).phase[p] == InP
  {
    hide Semaphores.VQueue;
    var q :| q in s.inside;
    OnlyOne(s.inside, q);
  }

  /** releaseMutex by the process that entered at step i, and is still inside at step j, reaches its V
    * if and only if no process has executed `holder_pid = -1` in between.  (A process clears
    * holder_pid after its V, when the next one may already have written it.)  Otherwise the mutex is
    * stuck. */
  lemma ReleaseWorksIff(ss: seq<State>, es: seq<Event>, p: nat, i: nat, j: nat)
    requires Run(ss, es) && i < j < |es|
    requires es[i] == WriteHolder(p) && es[j] == Test(p)
    requires forall m :: i < m <= j ==> p in ss[m].inside
    ensures p in ss[j + 1].phase
    ensures ss[j + 1].phase[p] == Tested <==> !SomeClear(es, i + 1, j)
    ensures SomeClear(es, i + 1, j) ==> ss[j + 1] == ss[j] && Stuck(ss[j])
  {
    HolderWhileInside(ss, es, p, i, j);
    assert StepTo(ss[j], es[j], ss[j + 1]);
    RunInv(ss, es, j);
    OnlyOne(ss[j].inside, p);
  }

  // A run in which 2 enters while 1 leaves, and 1 clears holder_pid after 2 wrote it.
  const LEAK := [CallP(1), WriteHolder(1), CallP(2), Test(1), CallV(1), WriteHolder(2), Clear(1), Test(2)]

  function LeakState(i: nat): State {
    match i
    case 0 => State(1, [], -1, map[1 := Outside, 2 := Outside], multiset{})
    case 1 => State(0, [], -1, map[1 := Granted, 2 := Outside], multiset{1})
    case 2 => State(0, [], 1, map[1 := Outside, 2 := Outside], multiset{1})
    case 3 => State(-1, [2], 1, map[1 := Outside, 2 := InP], multiset{1})
    case 4 => State(-1, [2], 1, map[1 := Tested, 2 := InP], multiset{1})
    case 5 => State(0, [], 1, map[1 := Signalled, 2 := Granted], multiset{2})
    case 6 => State(0, [], 2, map[1 := Signalled, 2 := Outside], multiset{2})
    case _ => State(0, [], -1, map[1 := Outside, 2 := Outside], multiset{2})
  }

  lemma LeakEnter()
    ensures StepTo(LeakState(0), CallP(1), LeakState(1)) && StepTo(LeakState(1), WriteHolder(1), LeakState(2))
    ensures StepTo(LeakState(2), CallP(2), LeakState(3)) && StepTo(LeakState(3), Test(1), LeakState(4))
  {
    assert multiset{} + multiset{1} == multiset{1};
  }

  lemma LeakLeave()
    ensures StepTo(LeakState(4), CallV(1), LeakState(5))
  {
    var s, p: nat, h: nat := LeakState(4), 1, 2;
    assert s.inside - multiset{p} == multiset{};
    assert multiset{} + multiset{h} == multiset{h};
    assert Semaphores.VQueue(s.value, s.queue, p) == [];
  }

  lemma LeakEnd()
    ensures StepTo(LeakState(5), WriteHolder(2), LeakState(6)) && StepTo(LeakState(6), Clear(1), LeakState(7))
    ensures StepTo(LeakState(7), Test(2), LeakState(8))
  {
  }

  /** Such a run exists, and after it 2's release does nothing: the mutex is stuck with everybody outside. */
  lemma LeakExample() returns (ss: seq<State>)
    ensures Run(ss, LEAK)
    ensures var s := ss[|LEAK|];
            s.inside == multiset{2} && s.value == 0 && s.holder == -1 && s.phase == map[1 := Outside, 2 := Outside]
    ensures Stuck(ss[|LEAK|])
  {
    hide StepTo;
    ss := seq(9, i requires 0 <= i => LeakState(i));
    LeakEnter();
    LeakLeave();
    LeakEnd();
    forall i | 0 <= i < |LEAK| ensures StepTo(ss[i], LEAK[i], ss[i + 1]) {
      assert i == 0 || i == 1 || i == 2 || i == 3 || i == 4 || i == 5 || i == 6 || i == 7;
    }
  }
}
