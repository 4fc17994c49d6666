/** Exactly when termination and scheduling keep the kernel's lists sound and its semaphores balanced. */
module Exactness {
  import opened KernelTypes
  import opened KernelState
  import opened KernelInv
  import opened KernelRun
  import opened KernelWalk
  import KernelTerm
  import Semaphores

  lemma NotTwice(k: K, p: nat, a: Place, b: Place)
    requires Inv(k) && p < MAXPROC
    ensures At(k, p, a) && At(k, p, b) ==> a == b
  {
    EveryPcbInOnePlace(k, p);
  }

  /** The end of terminateSubtree on a childless process keeps the invariant if and only if the process
    * carries no semaphore address, or is neither on the ready queue nor running on another CPU.
    * Otherwise p_semAdd, which nothing resets when a process is woken, sends it down the branch for
    * blocked processes, and the PCB is freed while still queued or still running. */
  lemma ReapExactlyWhenGuarded(k: K, cpu: nat, p: nat)
    requires Inv(k) && Bounded(k) && cpu < NCPU && p < MAXPROC && p !in k.free && k.children[p] == []
    requires k.pcb[p].parent.Some? ==> k.pcb[p].parent.value < MAXPROC
    ensures Inv(KernelTerm.Reap(k, cpu, p)) <==> Guarded(k, cpu, {p})
  {
    hide InvAt;
    var k' := KernelTerm.Reap(k, cpu, p);
    if Guarded(k, cpu, {p}) {
      KernelTerm.ReapIsRemoval(k, cpu, p);
      LeafRemovable(k, cpu, p);
      KernelTerm.RemovedKeepsInv(k, cpu, {p}, Freed(k, {p}), k');
    } else {
      assert At(k', p, InFree);
      if Inv(k') {
        if p in k.ready {
          NotTwice(k', p, InFree, InReady);
        } else {
          var c :| 0 <= c < NCPU && c != cpu && k.running[c] == Some(p);
          NotTwice(k', p, InFree, OnCpu(c));
        }
      }
    }
  }

  lemma LeafRemovable(k: K, cpu: nat, p: nat)
    requires Inv(k) && Shape(k) && p < MAXPROC && p !in k.free && k.children[p] == []
    requires Guarded(k, cpu, {p})
    ensures KernelTerm.Removable(k, cpu, {p}, Freed(k, {p}))
  {
    hide Inv, Under;
    KernelTerm.KnownChildren(k, p);
  }

  // ---------------------------------------------------------------- the whole recursion

  /** A point of terminateSubtree: the kernel, and the processes whose calls are open, innermost first. */
  datatype Point = Point(k: K, open: seq<nat>)

  ghost predicate CanAdvance(cpu: nat, w: Point) {
    && Bounded(w.k) && cpu < NCPU && w.open != [] && w.open[0] < MAXPROC
    && var p := w.open[0];
    && (w.k.children[p] != [] ==> w.k.children[p][0] < MAXPROC)
    && (w.k.pcb[p].parent.Some? ==> w.k.pcb[p].parent.value < MAXPROC)
  }

  /** The innermost call cuts its first child loose and calls itself on it, or, without children, reaps
    * its process and returns. */
  ghost function Advance(cpu: nat, w: Point): Point
    requires CanAdvance(cpu, w)
  {
    var p := w.open[0];
    if w.k.children[p] != [] then Point(KernelTerm.CutFirstChild(w.k, p), [w.k.children[p][0]] + w.open)
    else Point(KernelTerm.Reap(w.k, cpu, p), w.open[1..])
  }

  ghost predicate Advances(cpu: nat, w: Point, w': Point) {
    Inv(w.k) && CanAdvance(cpu, w) && w' == Advance(cpu, w)
  }

  /** Successive points; beyond one where the invariant fails, the tables no longer mean a kernel state. */
  ghost predicate Path(cpu: nat, ws: seq<Point>) {
    ws != [] && forall i :: 0 <= i < |ws| - 1 ==> Advances(cpu, ws[i], ws[i + 1])
  }

  ghost function Last(ws: seq<Point>): Point
    requires ws != []
  {
    ws[|ws| - 1]
  }

  /** Every call has returned, or the invariant is lost. */
  ghost predicate Ended(ws: seq<Point>)
    requires ws != []
  {
    Last(ws).open == [] || !Inv(Last(ws).k)
  }

  /** The last step reaps a process that does not satisfy the guard. */
  ghost predicate ReapsUnguarded(cpu: nat, ws: seq<Point>, S: set<nat>) {
    && |ws| >= 2
    && var w := ws[|ws| - 2];
    && Shape(w.k) && w.open != [] && w.open[0] in S && w.open[0] < MAXPROC
    && w.k.children[w.open[0]] == [] && !Guarded(w.k, cpu, {w.open[0]})
  }

  lemma PathJoin(cpu: nat, a: seq<Point>, b: seq<Point>)
    requires Path(cpu, a) && Path(cpu, b) && Last(a) == b[0]
    ensures Path(cpu, a[..|a| - 1] + b)
  {
    var ws := a[..|a| - 1] + b;
    forall i | 0 <= i < |ws| - 1 ensures Advances(cpu, ws[i], ws[i + 1]) {
      if i < |a| - 1 {
        assert Advances(cpu, a[i], a[i + 1]);
      } else {
        assert Advances(cpu, b[i - (|a| - 1)], b[i + 1 - (|a| - 1)]);
      }
    }
  }

  /** What the call for p, on behalf of the open calls `rest`, amounts to. */
  ghost predicate Outcome(k0: K, cpu: nat, p: nat, rest: seq<nat>, ws: seq<Point>)
    requires Shape(k0) && ws != []
  {
    var S := Subtree(k0, p);
    && (Guarded(k0, cpu, S) ==>
          Last(ws).open == rest && Inv(Last(ws).k) && Removed(k0, cpu, S, Detached(k0, p), Last(ws).k))
    && (!Guarded(k0, cpu, S) ==> !Inv(Last(ws).k) && ReapsUnguarded(cpu, ws, S))
  }

  /** The call for p from the point where i of its children are done. */
  lemma {:induction false} Walk(k0: K, cpu: nat, p: nat, i: nat, k: K, rest: seq<nat>) returns (ws: seq<Point>)
    requires Rooted(k0, cpu, p) && Shape(k0) && i <= |k0.children[p]| && Partly(k0, cpu, p, i, k)
    ensures Path(cpu, ws) && ws[0] == Point(k, [p] + rest) && Outcome(k0, cpu, p, rest, ws)
    decreases k0.nextPid - k0.pcb[p].pid, |k0.children[p]| - i
  {
    hide Inv, Guarded, Subtree, Removed, KernelTerm.Branches, KernelTerm.Reap, KernelTerm.CutFirstChild, Detached;
    PidBound(k0, p);
    PartlyInv(k0, cpu, p, i, k);
    ParentLive(k, p);
    var w := Point(k, [p] + rest);
    if i == |k0.children[p]| {
      ws := LastStep(k0, cpu, p, k, rest);
    } else {
      var c := k0.children[p][i];
      CutRemoves(k0, cpu, p, i, k);
      var k1 := KernelTerm.CutFirstChild(k, p);
      CutRooted(k0, cpu, p, i, k1);
      PartlyStart(k1, cpu, c);
      var sub := Walk(k1, cpu, c, 0, k1, [p] + rest);
      assert Advances(cpu, w, Point(k1, [c] + ([p] + rest)));
      PathJoin(cpu, [w, sub[0]], sub);
      ws := [w] + sub;
      assert [w, sub[0]][..1] + sub == ws;
      KernelTerm.BranchStep(k0, p, i);
      if Guarded(k0, cpu, Subtree(k0, c)) {
        PartlyNext(k0, cpu, p, i, k1, Last(sub).k);
        var tail := Walk(k0, cpu, p, i + 1, Last(sub).k, rest);
        PathJoin(cpu, ws, tail);
        ws := Joined(k0, cpu, p, rest, ws, tail);
      } else {
        NotAllGuarded(k0, cpu, p, i);
      }
    }
  }

  lemma NotAllGuarded(k0: K, cpu: nat, p: nat, i: nat)
    requires Rooted(k0, cpu, p) && Shape(k0) && i < |k0.children[p]|
    requires !Guarded(k0, cpu, Subtree(k0, k0.children[p][i]))
    ensures !Guarded(k0, cpu, Subtree(k0, p))
  {
    if Guarded(k0, cpu, Subtree(k0, p)) {
      GuardedParts(k0, cpu, p, i);
    }
  }

  lemma Joined(k0: K, cpu: nat, p: nat, rest: seq<nat>, a: seq<Point>, b: seq<Point>) returns (ws: seq<Point>)
    requires Shape(k0) && a != [] && b != [] && Last(a) == b[0] && Outcome(k0, cpu, p, rest, b)
    requires Path(cpu, a[..|a| - 1] + b) && |b| >= 2
    ensures ws == a[..|a| - 1] + b && Path(cpu, ws) && ws[0] == a[0] && Outcome(k0, cpu, p, rest, ws)
  {
    hide Inv, Guarded, Subtree, Removed, Detached, Path;
    ws := a[..|a| - 1] + b;
    assert ws[|ws| - 2] == b[|b| - 2] && Last(ws) == Last(b);
  }

  lemma LastStep(k0: K, cpu: nat, p: nat, k: K, rest: seq<nat>) returns (ws: seq<Point>)
    requires Rooted(k0, cpu, p) && Shape(k0) && Partly(k0, cpu, p, |k0.children[p]|, k)
    ensures Path(cpu, ws) && ws[0] == Point(k, [p] + rest) && |ws| == 2 && Outcome(k0, cpu, p, rest, ws)
  {
    hide Inv, Guarded, Subtree, Removed, KernelTerm.Branches, KernelTerm.Reap, Detached;
    LastState(k0, cpu, p, k);
    var w := Point(k, [p] + rest);
    ws := [w, Advance(cpu, w)];
    assert ([p] + rest)[1..] == rest;
    assert Advances(cpu, ws[0], ws[1]);
    ReapExactlyWhenGuarded(k, cpu, p);
    KernelTerm.InOwnSubtree(k0, p);
    if Guarded(k0, cpu, Subtree(k0, p)) {
      LastReap(k0, cpu, p, k);
    }
  }

  /** The recursion always comes to an end. */
  lemma TerminationEnds(k: K, cpu: nat, p: nat) returns (ws: seq<Point>)
    requires Rooted(k, cpu, p)
    ensures Path(cpu, ws) && ws[0] == Point(k, [p]) && Ended(ws)
  {
    PartlyStart(k, cpu, p);
    ws := Walk(k, cpu, p, 0, k, []);
  }

  lemma {:induction false} SamePath(cpu: nat, a: seq<Point>, b: seq<Point>, n: nat)
    requires Path(cpu, a) && Path(cpu, b) && a[0] == b[0] && n < |a| && n < |b|
    ensures a[n] == b[n]
  {
    if n > 0 {
      var m := n - 1;
      SamePath(cpu, a, b, m);
      assert Advances(cpu, a[m], a[m + 1]) && Advances(cpu, b[m], b[m + 1]);
    }
  }

  lemma OneEnd(cpu: nat, a: seq<Point>, b: seq<Point>)
    requires Path(cpu, a) && Path(cpu, b) && a[0] == b[0] && Ended(a) && Ended(b)
    ensures a == b
  {
    forall n: nat | n < |a| && n < |b| ensures a[n] == b[n] {
      SamePath(cpu, a, b, n);
    }
    var n := if |a| <= |b| then |a| - 1 else |b| - 1;
    assert n < |a| - 1 ==> Advances(cpu, a[n], a[n + 1]);
    assert n < |b| - 1 ==> Advances(cpu, b[n], b[n + 1]);
  }

  /** terminateSubtree on a live process keeps the invariant, from the first step to the last, if and only
    * if the whole subtree satisfies the guard.  Then it removes exactly the subtree; otherwise it comes
    * to a member that does not satisfy the guard, and reaping that member destroys the invariant. */
  lemma TerminationSoundExactlyWhenGuarded(k: K, cpu: nat, p: nat, ws: seq<Point>)
    requires Rooted(k, cpu, p) && Path(cpu, ws) && ws[0] == Point(k, [p]) && Ended(ws)
    ensures Shape(k)
    ensures Inv(Last(ws).k) <==> Guarded(k, cpu, Subtree(k, p))
    ensures Inv(Last(ws).k) ==> Last(ws).open == [] && Removed(k, cpu, Subtree(k, p), Detached(k, p), Last(ws).k)
    ensures !Inv(Last(ws).k) ==> ReapsUnguarded(cpu, ws, Subtree(k, p))
  {
    hide Inv, Guarded, Subtree, Removed, Detached;
    PartlyStart(k, cpu, p);
    var vs := Walk(k, cpu, p, 0, k, []);
    OneEnd(cpu, ws, vs);
  }

  /** Of the terminated subtree exactly the processes that were ready or were ever blocked are freed. */
  lemma FreedExactlyWhenEverQueued(k: K, cpu: nat, p: nat, k': K, m: nat)
    requires Rooted(k, cpu, p) && Terminates(k, cpu, Some(p), k') && m in Subtree(k, p)
    ensures m < MAXPROC && (m in k'.free <==> m in k.ready || k.pcb[m].semAdd.Some?)
  {
    hide Inv, Guarded, Under;
    KernelTerm.SubtreeLive(k, p);
    var fs :| FreedOnto(k, Subtree(k, p), fs, k'.free);
  }

  /** TERMPROCESS(0) returns to its caller, which keeps its CPU, if and only if it was never blocked. */
  lemma CallerSurvivesExactlyWhenNeverBlocked(k: K, cpu: nat, k': K)
    requires Inv(k) && Bounded(k) && cpu < NCPU && k.running[cpu].Some?
    requires Terminates(k, cpu, k.running[cpu], k')
    ensures k.running[cpu].value < MAXPROC && Shape(k')
    ensures k'.running[cpu] == k.running[cpu] <==> k.pcb[k.running[cpu].value].semAdd.None?
    ensures k.running[cpu].value !in k'.free <==> k.pcb[k.running[cpu].value].semAdd.None?
  {
    hide Inv, Guarded, Subtree;
    var p := k.running[cpu].value;
    RunningNotReady(k, cpu);
    KernelTerm.InOwnSubtree(k, p);
    FreedExactlyWhenEverQueued(k, cpu, p, k', p);
  }

  // ---------------------------------------------------------------- who is found by a pid

  /** An allocated process that no CPU runs. */
  ghost predicate OffCpus(k: K, p: nat)
    requires Shape(k)
  {
    p < MAXPROC && p !in k.free && forall c :: 0 <= c < NCPU ==> k.running[c] != Some(p)
  }

  /** ... is ready or waits in the queue of its semaphore. */
  lemma OffCpusQueued(k: K, p: nat)
    requires Inv(k) && Bounded(k)
    ensures OffCpus(k, p) ==> At(k, p, InReady) || (k.pcb[p].semAdd.Some? && At(k, p, InQueue(k.pcb[p].semAdd.value)))
    ensures Waiting(k, p) ==> OffCpus(k, p)
  {
    hide Inv;
    if p < MAXPROC {
      EveryPcbInOnePlace(k, p);
      var place :| At(k, p, place);
      if place.InQueue? {
        Semaphores.QueueKnown(k, place.key);
        assert p in Semaphores.Queue(k, place.key);
      }
      if Waiting(k, p) {
        WaitingPlace(k, p);
      }
    }
  }

  lemma WaitingPlace(k: K, p: nat)
    requires Inv(k) && Bounded(k) && p < MAXPROC && Waiting(k, p)
    ensures OffCpus(k, p)
  {
    hide Inv;
    var place := if p in k.ready then InReady else
      var key :| key in k.blocked && p in k.blocked[key]; InQueue(key);
    NotTwice(k, p, place, InFree);
    forall c | 0 <= c < NCPU ensures k.running[c] != Some(p) {
      NotTwice(k, p, place, OnCpu(c));
    }
  }

  /** TERMPROCESS finds every live process that no CPU runs by its pid, wherever it is, and nothing else. */
  lemma FoundByPid(k: K, cpu: nat, p: nat, t: Option<nat>)
    requires Inv(k) && Bounded(k) && cpu < NCPU && OffCpus(k, p) && k.pcb[p].pid != 0
    ensures IsTarget(k, cpu, k.pcb[p].pid, t) <==> t == Some(p)
  {
    hide Inv;
    OffCpusQueued(k, p);
    InvForest(k);
    if t.Some? {
      OffCpusQueued(k, t.value);
    }
  }

  /** Of the processes under p exactly those that no CPU runs, or that were ever blocked, are freed, and no
    * others. */
  ghost predicate TreeFreed(k: K, p: nat, k': K)
    requires Shape(k)
  {
    forall q :: 0 <= q < MAXPROC ==>
      (q in k'.free <==> q in k.free || (q in Subtree(k, p) && (OffCpus(k, q) || k.pcb[q].semAdd.Some?)))
  }

  /** What TERMPROCESS does, by the pid alone: 0 is the caller, any other pid the process off the CPUs that
    * has it, if there is one. */
  ghost predicate TermSpec(k: K, cpu: nat, pid: int, k': K)
    requires Shape(k) && cpu < NCPU
  {
    && (pid == 0 && k.running[cpu].Some? ==> TreeFreed(k, k.running[cpu].value, k'))
    && (forall p: nat :: OffCpus(k, p) && k.pcb[p].pid == pid != 0 ==> p in k'.free && TreeFreed(k, p, k'))
    && (pid != 0 && (forall p: nat :: OffCpus(k, p) ==> k.pcb[p].pid != pid) ==> k' == k)
  }

  lemma TreeIsFreed(k: K, cpu: nat, p: nat, k': K)
    requires Inv(k) && Bounded(k) && cpu < NCPU && p < MAXPROC && p !in k.free && Terminates(k, cpu, Some(p), k')
    ensures TreeFreed(k, p, k')
    ensures OffCpus(k, p) ==> p in k'.free
  {
    hide Inv, Guarded, Under, OffCpus;
    var S := Subtree(k, p);
    KernelTerm.SubtreeLive(k, p);
    KernelTerm.InOwnSubtree(k, p);
    var fs :| FreedOnto(k, S, fs, k'.free);
    forall q | 0 <= q < MAXPROC && q in S ensures q in Freed(k, S) <==> OffCpus(k, q) || k.pcb[q].semAdd.Some? {
      OffCpusQueued(k, q);
    }
    assert forall q :: 0 <= q < MAXPROC ==> (q in k'.free <==> q in fs || q in k.free);
  }

  lemma TargetOffCpus(k: K, cpu: nat, pid: int, t: Option<nat>)
    requires Inv(k) && Bounded(k) && cpu < NCPU && IsTarget(k, cpu, pid, t)
    ensures pid == 0 ==> t == k.running[cpu]
    ensures pid != 0 && t.Some? ==> OffCpus(k, t.value) && k.pcb[t.value].pid == pid
    ensures t.Some? ==> t.value < MAXPROC && t.value !in k.free
  {
    hide Inv, Waiting, OffCpus;
    if t.Some? {
      TargetLive(k, cpu, pid, t.value);
      OffCpusQueued(k, t.value);
    }
  }

  /** A guarded TERMPROCESS terminates the tree of the caller for pid 0, of the process off the CPUs with the
    * given pid otherwise, and nothing when there is none. */
  lemma TerminatedByPid(k: K, cpu: nat, pid: int, k': K)
    requires Inv(k) && Bounded(k) && Next(k, TermE(cpu, pid), k')
    ensures TermSpec(k, cpu, pid, k')
  {
    hide Inv, IsTarget, TreeFreed, Guarded, Subtree, Removed;
    var t :| IsTarget(k, cpu, pid, t) && Terminates(k, cpu, t, k');
    TargetOffCpus(k, cpu, pid, t);
    if t.Some? {
      TreeIsFreed(k, cpu, t.value, k');
    }
    forall p: nat | p < MAXPROC && OffCpus(k, p) && k.pcb[p].pid == pid != 0 ensures t == Some(p) {
      FoundByPid(k, cpu, p, t);
    }
  }

  // ---------------------------------------------------------------- the scheduler

  /** Scheduler keeps the invariant if and only if its CPU runs nothing or nothing is ready: it
    * overwrites current_process without looking. */
  lemma DispatchExactlyWhenIdle(k: K, cpu: nat)
    requires Inv(k) && Bounded(k) && cpu < NCPU
    ensures Inv(Dispatch(k, cpu)) <==> k.running[cpu].None? || k.ready == []
  {
    hide InvAt;
    var k' := Dispatch(k, cpu);
    if k.running[cpu].None? {
      DispatchStepKeeps(k, cpu);
    } else if k.ready != [] {
      var p := k.running[cpu].value;
      Displaced(k, cpu);
      if Inv(k') {
        EveryPcbInOnePlace(k', p);
        var place :| At(k', p, place);
        AtBefore(k, cpu, p, place);
      }
    }
  }

  /** The running process that a dispatch displaces was not the head of the ready queue. */
  lemma Displaced(k: K, cpu: nat)
    requires Inv(k) && Bounded(k) && cpu < NCPU && k.running[cpu].Some? && k.ready != []
    ensures k.ready[0] != k.running[cpu].value && k.running[cpu].value < MAXPROC
  {
    assert k.ready[0] in k.ready;
    NotTwice(k, k.ready[0], InReady, OnCpu(cpu));
  }

  /** ... and is nowhere after it. */
  lemma AtBefore(k: K, cpu: nat, p: nat, place: Place)
    requires Inv(k) && Bounded(k) && cpu < NCPU && k.running[cpu] == Some(p) && k.ready != [] && k.ready[0] != p
    ensures !At(Dispatch(k, cpu), p, place)
  {
    hide InvAt;
    if At(Dispatch(k, cpu), p, place) {
      assert At(k, p, OnCpu(cpu));
      if place.InReady? {
        assert p in k.ready[1..] && p in k.ready;
      }
      NotTwice(k, p, place, OnCpu(cpu));
    }
  }

  /** After a guarded termination of the caller, Scheduler keeps the invariant if and only if the caller
    * was blocked at least once or every ready process was in its subtree. */
  lemma DieAfterTermination(k: K, cpu: nat, k1: K)
    requires Inv(k) && Bounded(k) && cpu < NCPU && k.running[cpu].Some?
    requires Terminates(k, cpu, k.running[cpu], k1)
    ensures Inv(k1) && Bounded(k1)
    ensures Inv(Dispatch(k1, cpu)) <==>
      var p := k.running[cpu].value; k.pcb[p].semAdd.Some? || forall q :: q in k.ready ==> q in Subtree(k, p)
  {
    hide InvAt, Guarded, Without, Subtree, WithoutAll, Inv, Dispatch;
    var p := k.running[cpu].value;
    TerminationKeeps(k, cpu, 0, k.running[cpu], k1);
    InvBounded(k1);
    RunningNotReady(k, cpu);
    KernelTerm.InOwnSubtree(k, p);
    DispatchExactlyWhenIdle(k1, cpu);
    KernelTerm.WithoutMembers(k.ready, Subtree(k, p));
    if k1.ready != [] {
      HasMember(k1.ready);
    }
  }

  /** passUpordie on a process without support structure terminates the caller and then calls Scheduler.
    * That keeps the invariant throughout if and only if the caller's subtree satisfies the guard and the
    * caller was blocked at least once or every ready process is in that subtree: a process that never
    * blocked is not freed by termProc, and is displaced from its CPU, lost to every queue. */
  lemma DieExactlyWhenBlockedBefore(k: K, cpu: nat, ws: seq<Point>)
    requires Inv(k) && Bounded(k) && cpu < NCPU && k.running[cpu].Some?
    requires Path(cpu, ws) && ws[0] == Point(k, [k.running[cpu].value]) && Ended(ws)
    ensures Inv(Last(ws).k) && Inv(Dispatch(Last(ws).k, cpu)) <==>
      var p := k.running[cpu].value;
      && Guarded(k, cpu, Subtree(k, p))
      && (k.pcb[p].semAdd.Some? || forall q :: q in k.ready ==> q in Subtree(k, p))
  {
    hide InvAt, Guarded, Subtree, Inv, Dispatch, Removed, Detached;
    RunningNotReady(k, cpu);
    TerminationSoundExactlyWhenGuarded(k, cpu, k.running[cpu].value, ws);
    if Inv(Last(ws).k) {
      DieAfterTermination(k, cpu, Last(ws).k);
    }
  }

  lemma RunningNotReady(k: K, cpu: nat)
    requires Inv(k) && Bounded(k) && cpu < NCPU && k.running[cpu].Some?
    ensures k.running[cpu].value < MAXPROC && k.running[cpu].value !in k.ready && k.running[cpu].value !in k.free
  {
    NotTwice(k, k.running[cpu].value, InReady, OnCpu(cpu));
    NotTwice(k, k.running[cpu].value, InFree, OnCpu(cpu));
  }

  // ---------------------------------------------------------------- the signals of a termination

  /** Terminating the processes of S keeps value plus queue length of a semaphore if and only if every
    * one of them that carries its address is really in its queue.  A process woken earlier still
    * carries it, and the signal sent for it is one too many. */
  lemma BalancedExactlyWhenWaiting(k: K, cpu: nat, S: set<nat>, D: set<nat>, k': K, key: Key)
    requires Inv(k) && Bounded(k) && Removed(k, cpu, S, D, k')
    ensures Get(k'.val, key) + |Semaphores.Queue(k', key)| == Get(k.val, key) + |Semaphores.Queue(k, key)|
      <==> forall m :: m in Charged(k.pcb, S, key) ==> m in Semaphores.Queue(k, key)
  {
    hide Freed, Guarded;
    var q, charged := Semaphores.Queue(k, key), Charged(k.pcb, S, key);
    Semaphores.QueueKnown(k, key);
    assert Semaphores.Queue(k', key) == Without(q, S);
    KernelTerm.WithoutSize(q, S);
    assert KernelTerm.Among(q, S) <= charged;
    assert (forall m :: m in charged ==> m in q) ==> KernelTerm.Among(q, S) == charged;
    if |KernelTerm.Among(q, S)| == |charged| {
      SameSize(KernelTerm.Among(q, S), charged);
    }
  }

  lemma SameSize<T>(a: set<T>, b: set<T>)
    requires a <= b && |a| == |b|
    ensures a == b
  {
    if x :| x in b && x !in a {
      SubsetSize(a, b - {x});
    }
  }
}
