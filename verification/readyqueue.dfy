/** The ready queue over whole runs: nobody starves. */
module ReadyQueue {
  import opened KernelTypes
  import opened KernelState
  import opened KernelInv
  import opened KernelRun
  import KernelTerm
  import ListX

  /** Event e in state k dispatches a process. */
  predicate Dispatches(k: K, e: Event) {
    e.SchedE? && k.ready != []
  }

  ghost function DispatchCount(ks: seq<K>, es: seq<Event>, n: nat): nat
    requires n <= |es| < |ks|
  {
    if n == 0 then 0 else DispatchCount(ks, es, n - 1) + if Dispatches(ks[n - 1], es[n - 1]) then 1 else 0
  }

  /** Every step appends to the ready queue, or takes its head away, or deletes terminated processes. */
  lemma ReadyStep(k: K, e: Event, k': K)
    requires Bounded(k) && Next(k, e, k')
    ensures e.SchedE? ==> k'.ready == (if k.ready == [] then [] else k.ready[1..])
    ensures e.TermE? ==> exists S :: k'.ready == Without(k.ready, S)
    ensures !e.SchedE? && !e.TermE? ==> k.ready <= k'.ready
  {
    hide FindDeviceIndex, InterruptKey, Enq, Deq, IsTarget, Without, Guarded, Subtree, Detached;
    match e {
      case TermE(cpu, pid) =>
        var t :| IsTarget(k, cpu, pid, t) && Terminates(k, cpu, t, k');
        if t.None? {
          KernelTerm.WithoutNone(k.ready, {});
        }
      case _ =>
    }
  }

  lemma {:induction false} WithoutPosition(q: seq<nat>, S: set<nat>, i: nat)
    requires i < |q| && q[i] !in S
    ensures exists j :: 0 <= j <= i && j < |Without(q, S)| && Without(q, S)[j] == q[i]
  {
    var r := Without(q[1..], S);
    if i == 0 {
      assert Without(q, S)[0] == q[0];
    } else {
      WithoutPosition(q[1..], S, i - 1);
      var j :| 0 <= j <= i - 1 && j < |r| && r[j] == q[i];
      if q[0] in S {
        assert Without(q, S) == r;
      } else {
        assert Without(q, S)[j + 1] == q[i];
      }
    }
  }

  /** p is ready, with at most `ahead` processes before it. */
  ghost predicate ReadyWithin(k: K, p: nat, ahead: int) {
    exists i :: 0 <= i < |k.ready| && i <= ahead && k.ready[i] == p
  }

  lemma StepMovesUp(k: K, e: Event, k': K, p: nat, ahead: int)
    requires Bounded(k) && Next(k, e, k') && ReadyWithin(k, p, ahead) && p in k'.ready && ListX.NoDup(k.ready)
    ensures ReadyWithin(k', p, if Dispatches(k, e) then ahead - 1 else ahead)
  {
    hide Bounded, Next, Without;
    ReadyStep(k, e, k');
    var i :| 0 <= i < |k.ready| && i <= ahead && k.ready[i] == p;
    if e.SchedE? {
      var j :| 0 <= j < |k'.ready| && k'.ready[j] == p;
      assert k.ready[j + 1] == p;
      assert k'.ready[i - 1] == p;
    } else if e.TermE? {
      var S :| k'.ready == Without(k.ready, S);
      KernelTerm.WithoutMembers(k.ready, S);
      WithoutPosition(k.ready, S, i);
    } else {
      assert k'.ready[i] == p;
    }
  }

  lemma {:induction false} Advances(ks: seq<K>, es: seq<Event>, n: nat, p: nat, position: nat)
    requires Run(ks, es) && n <= |es|
    requires position < |ks[0].ready| && ks[0].ready[position] == p
    requires forall m :: 0 <= m <= n ==> p in ks[m].ready
    ensures ReadyWithin(ks[n], p, position - DispatchCount(ks, es, n))
  {
    hide Inv, Next, Bounded;
    if n > 0 {
      Advances(ks, es, n - 1, p, position);
      RunStep(ks, es, n - 1);
      EveryPcbInOnePlaceAlways(ks, es, n - 1, 0);
      StepMovesUp(ks[n - 1], es[n - 1], ks[n], p, position - DispatchCount(ks, es, n - 1));
    }
  }

  /** A process leaves the ready queue by being dispatched or by being terminated. */
  lemma LeavesByDispatchOrDeath(k: K, e: Event, k': K, p: nat)
    requires Inv(k) && Bounded(k) && Next(k, e, k') && p in k.ready && p !in k'.ready
    ensures (e.SchedE? && e.cpu < |k'.running| && k'.running[e.cpu] == Some(p)) || (e.TermE? && p in k'.free)
  {
    ReadyStep(k, e, k');
    if e.SchedE? {
      assert k.ready == [k.ready[0]] + k.ready[1..];
    } else if e.TermE? {
      var t :| IsTarget(k, e.cpu, e.pid, t) && Terminates(k, e.cpu, t, k');
      var S := Subtree(k, t.value);
      KernelTerm.WithoutMembers(k.ready, S);
      var fs :| FreedOnto(k, S, fs, k'.free);
      assert p in S && p < MAXPROC && p in Freed(k, S);
      assert p in fs;
    }
  }

  lemma {:induction false} FindLeaving(ks: seq<K>, es: seq<Event>, n: nat, p: nat, gone: nat) returns (m: nat)
    requires n <= |es| < |ks| && gone <= n && p in ks[0].ready && p !in ks[gone].ready
    ensures m < n && p in ks[m].ready && p !in ks[m + 1].ready
    decreases gone
  {
    if p in ks[gone - 1].ready {
      m := gone - 1;
    } else {
      m := FindLeaving(ks, es, n, p, gone - 1);
    }
  }

  /** No starvation: when more dispatches have happened than processes were ahead of p, p itself was
    * dispatched or terminated on the way.  Fewer than MAXPROC processes are ever ahead. */
  lemma NoStarvation(ks: seq<K>, es: seq<Event>, n: nat, p: nat, position: nat)
    requires Run(ks, es) && n <= |es|
    requires position < |ks[0].ready| && ks[0].ready[position] == p
    ensures position < MAXPROC
    ensures DispatchCount(ks, es, n) > position ==>
      exists m :: 0 <= m < n && p in ks[m].ready
        && ((es[m].SchedE? && es[m].cpu < |ks[m + 1].running| && ks[m + 1].running[es[m].cpu] == Some(p))
            || (es[m].TermE? && p in ks[m + 1].free))
  {
    hide Inv, Next, Bounded, DispatchCount;
    RunInv(ks, es, 0);
    ReadyBound(ks[0]);
    if DispatchCount(ks, es, n) > position {
      if forall m :: 0 <= m <= n ==> p in ks[m].ready {
        Advances(ks, es, n, p, position);
      } else {
        var gone :| 0 <= gone <= n && p !in ks[gone].ready;
        var m := FindLeaving(ks, es, n, p, gone);
        RunStep(ks, es, m);
        LeavesByDispatchOrDeath(ks[m], es[m], ks[m + 1], p);
      }
    }
  }

  lemma ReadyBound(k: K)
    requires Inv(k)
    ensures |k.ready| <= MAXPROC
  {
    var loc: seq<Place> :| InvAt(k, loc);
    var S := set p | p in k.ready;
    KernelTerm.SizeOfElements(k.ready, S);
    InRangeSize(S, MAXPROC);
  }

  lemma InRangeSize(S: set<nat>, n: nat)
    requires forall p :: p in S ==> p < n
    ensures |S| <= n
  {
    SubsetSize(S, Upto(n));
  }
}
