/** The recursion of terminateSubtree on values: what its loop over the children has done at each point. */
module KernelWalk {
  import opened KernelTypes
  import opened KernelState
  import opened KernelInv
  import opened KernelTerm

  // ---------------------------------------------------------------- reading a removal

  lemma RemovedPcbs(k: K, cpu: nat, S: set<nat>, D: set<nat>, k': K)
    requires Shape(k) && Removed(k, cpu, S, D, k')
    ensures Shape(k') && k'.nextPid == k.nextPid
    ensures forall m :: 0 <= m < MAXPROC ==> k'.pcb[m] == if m in D then k.pcb[m].(parent := None) else k.pcb[m]
    ensures forall m :: 0 <= m < MAXPROC ==> k'.children[m] == Without(k.children[m], D)
  {
  }

  lemma RemovedFree(k: K, cpu: nat, S: set<nat>, D: set<nat>, k': K)
    requires Shape(k) && Removed(k, cpu, S, D, k')
    ensures forall m :: m in k'.free ==> m in k.free || m in S
  {
    var fs :| FreedOnto(k, S, fs, k'.free);
  }

  /** A removal does not change whether other processes satisfy the guard. */
  lemma RemovedGuarded(k: K, cpu: nat, S: set<nat>, D: set<nat>, k': K, T: set<nat>)
    requires Shape(k) && Removed(k, cpu, S, D, k') && S !! T
    ensures Shape(k') && (Guarded(k', cpu, T) <==> Guarded(k, cpu, T))
  {
    WithoutMembers(k.ready, S);
  }

  lemma GuardedUnion(k: K, cpu: nat, S: set<nat>, T: set<nat>)
    requires Shape(k)
    ensures Guarded(k, cpu, S + T) <==> Guarded(k, cpu, S) && Guarded(k, cpu, T)
  {
  }

  // ---------------------------------------------------------------- one iteration of the loop

  /** A sound kernel in which p is a process. */
  ghost predicate Rooted(k: K, cpu: nat, p: nat) {
    Inv(k) && Bounded(k) && cpu < NCPU && p < MAXPROC && p !in k.free
  }

  /** What the recursion needs to stay sound. */
  ghost predicate Doomed(k: K, cpu: nat, p: nat) {
    Rooted(k, cpu, p) && Guarded(k, cpu, Subtree(k, p))
  }

  /** The first i children of p, with their descendants. */
  ghost function Done(k: K, p: nat, i: nat): set<nat>
    requires p < |k.children| && i <= |k.children[p]|
  {
    Branches(k, k.children[p][..i])
  }

  /** Between two iterations: the first i children of p are done, and were all guarded. */
  ghost predicate Partly(k0: K, cpu: nat, p: nat, i: nat, k: K)
    requires Shape(k0) && p < MAXPROC && i <= |k0.children[p]|
  {
    var S := Done(k0, p, i);
    Guarded(k0, cpu, S) && Removed(k0, cpu, S, S, k)
  }

  lemma PartlyInv(k0: K, cpu: nat, p: nat, i: nat, k: K)
    requires Rooted(k0, cpu, p) && i <= |k0.children[p]| && Partly(k0, cpu, p, i, k)
    ensures Rooted(k, cpu, p) && Shape(k)
    ensures k.children[p] == k0.children[p][i..]
    ensures k.nextPid - k.pcb[p].pid == k0.nextPid - k0.pcb[p].pid
  {
    hide Inv, Guarded, Branches, Subtree;
    var S := Done(k0, p, i);
    BranchesRemovable(k0, cpu, p, i, S);
    RemovedKeepsInv(k0, cpu, S, S, k);
    InvBounded(k);
    BranchSplit(k0, p, i);
    RemovedFree(k0, cpu, S, S, k);
  }

  lemma PidBound(k: K, p: nat)
    requires Inv(k) && p < MAXPROC && Shape(k) && p !in k.free
    ensures k.pcb[p].pid < k.nextPid
  {
    hide Placed, TreeOk;
    var loc: seq<Place> :| InvAt(k, loc);
  }

  lemma PartlyStart(k0: K, cpu: nat, p: nat)
    requires Rooted(k0, cpu, p)
    ensures Partly(k0, cpu, p, 0, k0)
  {
    RemovedNothing(k0, cpu);
    assert k0.children[p][..0] == [];
    assert Branches(k0, []) == {};
  }

  /** Cutting the next child c loose: the state after removeChild. */
  lemma CutRemoves(k0: K, cpu: nat, p: nat, i: nat, k: K)
    requires Rooted(k0, cpu, p) && i < |k0.children[p]| && Partly(k0, cpu, p, i, k)
    ensures k0.children[p][i] < MAXPROC && k0.pcb[k0.children[p][i]].parent == Some(p)
    ensures Shape(k) && k.children[p] != [] && k.children[p][0] == k0.children[p][i]
    ensures var c, S := k0.children[p][i], Done(k0, p, i);
            Removed(k0, cpu, S, S + {c}, CutFirstChild(k, p))
  {
    hide Inv, Removed, Guarded, Subtree, Branches, CutFirstChild;
    var c, S := k0.children[p][i], Done(k0, p, i);
    PartlyInv(k0, cpu, p, i, k);
    KnownChildren(k0, p);
    assert c in k0.children[p];
    CutIsRemoval(k, cpu, p);
    RemovedTwice(k0, cpu, S, S, k, {}, {c}, CutFirstChild(k, p));
    assert S + {} == S;
  }

  lemma CutTree(pcb: seq<Pcb>, pcb': seq<Pcb>, c: nat, S: set<nat>)
    requires |pcb| == MAXPROC == |pcb'| && c < MAXPROC && PidsUp(pcb)
    requires forall m :: 0 <= m < MAXPROC ==> pcb'[m] == if m in S + {c} then pcb[m].(parent := None) else pcb[m]
    requires forall m: nat :: m < MAXPROC && Under(pcb, c, m) ==> m !in S
    ensures forall d: nat :: Under(pcb', c, d) <==> Under(pcb, c, d)
  {
    forall d: nat ensures Under(pcb', c, d) <==> Under(pcb, c, d) {
      UnderFrame(pcb, pcb', c, d);
    }
  }

  lemma CutSubtree(k0: K, cpu: nat, c: nat, S: set<nat>, k1: K)
    requires Inv(k0) && Shape(k0) && c < MAXPROC
    requires Removed(k0, cpu, S, S + {c}, k1) && S !! Subtree(k0, c)
    ensures Subtree(k1, c) == Subtree(k0, c)
  {
    hide Inv, Removed, Under, TreeOk, PidsOk, PidsUp;
    InvPidsUp(k0);
    RemovedPcbs(k0, cpu, S, S + {c}, k1);
    assert forall m: nat :: m < MAXPROC && Under(k0.pcb, c, m) ==> m in Subtree(k0, c);
    CutTree(k0.pcb, k1.pcb, c, S);
  }

  /** The child c, cut loose, is the root of a tree which is as it was, guarded or not. */
  lemma CutRooted(k0: K, cpu: nat, p: nat, i: nat, k1: K)
    requires Rooted(k0, cpu, p) && i < |k0.children[p]| && Guarded(k0, cpu, Done(k0, p, i))
    requires k0.children[p][i] < MAXPROC && k0.pcb[k0.children[p][i]].parent == Some(p)
    requires var c, S := k0.children[p][i], Done(k0, p, i);
             Removed(k0, cpu, S, S + {c}, k1)
    ensures Rooted(k1, cpu, k0.children[p][i])
    ensures Subtree(k1, k0.children[p][i]) == Subtree(k0, k0.children[p][i])
    ensures Guarded(k1, cpu, Subtree(k0, k0.children[p][i])) <==> Guarded(k0, cpu, Subtree(k0, k0.children[p][i]))
    ensures k1.nextPid - k1.pcb[k0.children[p][i]].pid < k0.nextPid - k0.pcb[p].pid
  {
    hide Inv, Removed, Guarded, Subtree, Branches, Removable;
    var c, S := k0.children[p][i], Done(k0, p, i);
    BranchesRemovable(k0, cpu, p, i, S + {c});
    RemovedKeepsInv(k0, cpu, S, S + {c}, k1);
    InvBounded(k1);
    BranchStep(k0, p, i);
    CutSubtree(k0, cpu, c, S, k1);
    RemovedGuarded(k0, cpu, S, S + {c}, k1, Subtree(k0, c));
    RemovedPcbs(k0, cpu, S, S + {c}, k1);
    InvPidsUp(k0);
    RemovedFree(k0, cpu, S, S + {c}, k1);
    InOwnSubtree(k0, c);
  }

  /** The child's subtree is done too. */
  lemma PartlyNext(k0: K, cpu: nat, p: nat, i: nat, k1: K, k2: K)
    requires Rooted(k0, cpu, p) && i < |k0.children[p]|
    requires Guarded(k0, cpu, Done(k0, p, i)) && Guarded(k0, cpu, Subtree(k0, k0.children[p][i]))
    requires var c, S := k0.children[p][i], Done(k0, p, i);
             && c < MAXPROC && Shape(k1)
             && Removed(k0, cpu, S, S + {c}, k1) && Subtree(k1, c) == Subtree(k0, c)
             && Removed(k1, cpu, Subtree(k1, c), Detached(k1, c), k2)
    ensures Partly(k0, cpu, p, i + 1, k2)
  {
    hide Inv, Removed, Guarded, Subtree, Branches, Freed;
    var c, S := k0.children[p][i], Done(k0, p, i);
    BranchStep(k0, p, i);
    RemovedTwice(k0, cpu, S, S + {c}, k1, Subtree(k1, c), Detached(k1, c), k2);
    InOwnSubtree(k0, c);
    GuardedUnion(k0, cpu, S, Subtree(k0, c));
    assert S + {c} + Detached(k1, c) == S + Subtree(k0, c);
  }

  /** The guard of the whole is the guard of its parts. */
  lemma GuardedParts(k0: K, cpu: nat, p: nat, i: nat)
    requires Rooted(k0, cpu, p) && i <= |k0.children[p]| && Guarded(k0, cpu, Subtree(k0, p))
    ensures Guarded(k0, cpu, Done(k0, p, i)) && Guarded(k0, cpu, {p})
    ensures i < |k0.children[p]| ==> Guarded(k0, cpu, Subtree(k0, k0.children[p][i]))
  {
    hide Inv, Subtree, Branches;
    BranchSplit(k0, p, i);
    InOwnSubtree(k0, p);
    if i < |k0.children[p]| {
      BranchStep(k0, p, i);
    }
  }

  // ---------------------------------------------------------------- after the loop

  lemma LastState(k0: K, cpu: nat, p: nat, k: K)
    requires Rooted(k0, cpu, p) && Partly(k0, cpu, p, |k0.children[p]|, k)
    ensures Rooted(k, cpu, p) && k.children[p] == []
    ensures Guarded(k, cpu, {p}) <==> Guarded(k0, cpu, Subtree(k0, p))
    ensures Removed(k0, cpu, Subtree(k0, p) - {p}, Subtree(k0, p) - {p}, k)
    ensures k.pcb[p].parent.Some? ==>
      && k.pcb[p].parent.value < MAXPROC && k.pcb[p].parent.value !in k.free
      && p in k.children[k.pcb[p].parent.value]
  {
    hide Inv, Removed, Guarded, Subtree, Branches;
    var cs := k0.children[p];
    PartlyInv(k0, cpu, p, |cs|, k);
    assert cs[..|cs|] == cs;
    BranchesOfChildren(k0, p);
    InOwnSubtree(k0, p);
    var S := Subtree(k0, p) - {p};
    assert Subtree(k0, p) == S + {p};
    GuardedUnion(k0, cpu, S, {p});
    RemovedGuarded(k0, cpu, S, S, k, {p});
    ParentLive(k, p);
  }

  lemma FreedIn(k: K, S: set<nat>, p: nat)
    requires Shape(k) && p in S && p < MAXPROC
    ensures Freed(k, {p}) == if p in Freed(k, S) then {p} else {}
  {
  }

  lemma LastReap(k0: K, cpu: nat, p: nat, k: K)
    requires Doomed(k0, cpu, p) && Partly(k0, cpu, p, |k0.children[p]|, k)
    requires Bounded(k) && k.pcb[p].parent.Some? ==> k.pcb[p].parent.value < MAXPROC
    ensures Bounded(k) && Removed(k0, cpu, Subtree(k0, p), Detached(k0, p), Reap(k, cpu, p))
  {
    hide Inv, Removed, Guarded, Subtree, Branches, Reap, Freed;
    var S := Subtree(k0, p) - {p};
    LastState(k0, cpu, p, k);
    InOwnSubtree(k0, p);
    ReapIsRemoval(k, cpu, p);
    FreedAfter(k0, cpu, S, S, k, {p});
    RemovedTwice(k0, cpu, S, S, k, {p}, Freed(k, {p}), Reap(k, cpu, p));
    FreedIn(k0, Subtree(k0, p), p);
    assert S + {p} == Subtree(k0, p);
    assert S + Freed(k, {p}) == Detached(k0, p);
  }

  lemma ParentLive(k: K, p: nat)
    requires Inv(k) && p < MAXPROC
    ensures Shape(k)
    ensures k.pcb[p].parent.Some? ==>
      && k.pcb[p].parent.value < MAXPROC && k.pcb[p].parent.value !in k.free
      && p in k.children[k.pcb[p].parent.value]
  {
    hide Placed;
    var loc: seq<Place> :| InvAt(k, loc);
  }
}
