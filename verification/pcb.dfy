/** phase1/pcb.c: the free list, the process queues, the process tree. */
module PcbC {
  import opened KernelTypes
  import opened KernelState
  import opened KernelStore
  import KernelInv
  import KernelTerm
  import ListX

  // ---------------------------------------------------------------- process queues

  /** insertProcQ */
  method InsertProcQ(mem: ListX.ListMem<Addr>, head: Addr, p: nat)
    requires mem.Valid() && head in mem.lists && PList(p) !in mem.home && PList(p) !in mem.lists
    modifies mem
    ensures mem.Valid()
    ensures mem.lists == old(mem.lists)[head := old(mem.lists)[head] + [PList(p)]]
    ensures mem.home == old(mem.home)[PList(p) := head]
  {
    mem.ListAddTail(PList(p), head);
  }

  /** removeProcQ: the first PCB, or nothing (NULL) from an empty queue. */
  method RemoveProcQ(mem: ListX.ListMem<Addr>, head: Addr, ghost q: seq<nat>) returns (r: Option<nat>)
    requires mem.Valid() && head in mem.lists && mem.lists[head] == PLists(q)
    modifies mem
    ensures mem.Valid()
    ensures q == [] ==> r == None && mem.lists == old(mem.lists) && mem.home == old(mem.home)
    ensures q != [] ==> r == Some(q[0]) && mem.lists == old(mem.lists)[head := PLists(q[1..])]
    ensures q != [] ==> mem.home == old(mem.home) - {PList(q[0])}
  {
    var found, first := mem.ListNext(head);
    if !found {
      return None;
    }
    RemoveHead(PLists(q));
    assert PLists(q)[1..] == PLists(q[1..]);
    mem.ListDel(first, head, 0);
    return Some(first.p);
  }

  /** outProcQ: search the queue for p, and unlink it when it is there. */
  method OutProcQ(mem: ListX.ListMem<Addr>, head: Addr, p: nat, ghost q: seq<nat>) returns (found: bool)
    requires mem.Valid() && head in mem.lists && mem.lists[head] == PLists(q)
    modifies mem
    ensures mem.Valid()
    ensures found <==> p in q
    ensures !found ==> mem.lists == old(mem.lists) && mem.home == old(mem.home)
    ensures found ==> mem.lists == old(mem.lists)[head := PLists(KernelState.Without(q, {p}))]
    ensures found ==> mem.home == old(mem.home) - {PList(p)}
  {
    ghost var i := 0;
    mem.StepAt(head, 0);
    var pos := mem.next[head];
    while pos != head
      invariant 0 <= i <= |q| && pos == ListX.After(head, PLists(q), i)
      invariant mem.Valid() && mem.lists == old(mem.lists) && mem.home == old(mem.home)
      invariant p !in q[..i]
      decreases |q| - i
    {
      mem.StepAt(head, i + 1);
      if PList(p) == pos {
        mem.ListDel(pos, head, i);
        PListsRemove(q, i);
        QueueNoDup(q);
        KernelTerm.WithoutOne(q, i);
        return true;
      }
      pos := mem.next[pos];
      i := i + 1;
      assert q[..i] == q[..i - 1] + [q[i - 1]];
    }
    mem.StepAt(head, i);
    assert q[..i] == q;
    return false;
  }

  // ---------------------------------------------------------------- the ready queue of the kernel

  /** On no queue and not free: running, or on its way from one place to the next. */
  ghost predicate Nowhere(k: K, p: nat) {
    p !in k.free && p !in k.ready && forall key :: key in k.blocked ==> p !in k.blocked[key]
  }

  method InsertReady(st: Store, p: nat)
    requires st.Valid() && p < MAXPROC && Nowhere(st.k, p)
    modifies st`k, st.mem
    ensures st.Valid()
    ensures st.k == old(st.k).(ready := old(st.k).ready + [p])
  {
    hide ListX.WellFormed, Rep;
    RepBasics(st.k, st.asl, st.semdFree, st.semdKey[..], st.mem.lists);
    ghost var k0 := st.k;
    UnlinkedAt(st, p);
    InsertProcQ(st.mem, ReadyQ, p);
    st.k := k0.(ready := k0.ready + [p]);
    assert PLists(st.k.ready) == PLists(k0.ready) + [PList(p)];
    QueuesRep(k0, st.k, st.asl, st.semdFree, st.semdKey[..], old(st.mem.lists), st.mem.lists);
  }

  method RemoveReady(st: Store) returns (r: Option<nat>)
    requires st.Valid()
    modifies st`k, st.mem
    ensures st.Valid()
    ensures old(st.k).ready == [] ==> r == None && st.k == old(st.k)
    ensures old(st.k).ready != [] ==>
      r == Some(old(st.k).ready[0]) && st.k == old(st.k).(ready := old(st.k).ready[1..])
  {
    hide ListX.WellFormed, Rep;
    RepBasics(st.k, st.asl, st.semdFree, st.semdKey[..], st.mem.lists);
    ghost var k0 := st.k;
    r := RemoveProcQ(st.mem, ReadyQ, k0.ready);
    if r.Some? {
      st.k := k0.(ready := k0.ready[1..]);
      QueuesRep(k0, st.k, st.asl, st.semdFree, st.semdKey[..], old(st.mem.lists), st.mem.lists);
    }
  }

  method OutReady(st: Store, p: nat) returns (found: bool)
    requires st.Valid()
    modifies st`k, st.mem
    ensures st.Valid()
    ensures found <==> p in old(st.k).ready
    ensures st.k == if found then old(st.k).(ready := KernelState.Without(old(st.k).ready, {p})) else old(st.k)
  {
    hide ListX.WellFormed, Rep;
    RepBasics(st.k, st.asl, st.semdFree, st.semdKey[..], st.mem.lists);
    ghost var k0 := st.k;
    found := OutProcQ(st.mem, ReadyQ, p, k0.ready);
    if found {
      st.k := k0.(ready := KernelState.Without(k0.ready, {p}));
      QueuesRep(k0, st.k, st.asl, st.semdFree, st.semdKey[..], old(st.mem.lists), st.mem.lists);
    }
  }

  // ---------------------------------------------------------------- the free list

  /** Not free, and on no semaphore queue. */
  ghost predicate Unblocked(k: K, p: nat) {
    p !in k.free && forall key :: key in k.blocked ==> p !in k.blocked[key]
  }

  /** freePcb.  A PCB that is still on the ready queue ruins that queue and the free list. */
  method FreePcb(st: Store, p: nat)
    requires st.Valid() && p < MAXPROC && Unblocked(st.k, p)
    modifies st`k, st.mem
    ensures p !in old(st.k).ready ==> st.Valid() && st.k == old(st.k).(free := [p] + old(st.k).free)
    ensures p in old(st.k).ready ==> ListX.Meaningless(st.mem.next, st.mem.prev, ReadyQ, PcbFreeH)
  {
    hide ListX.WellFormed, Rep;
    RepBasics(st.k, st.asl, st.semdFree, st.semdKey[..], st.mem.lists);
    ghost var k0 := st.k;
    LinkedIfReady(st, p);
    st.mem.ListAdd(PList(p), PcbFreeH);
    if p !in k0.ready {
      st.k := k0.(free := [p] + k0.free);
      assert PLists(st.k.free) == [PList(p)] + PLists(k0.free);
      QueuesRep(k0, st.k, st.asl, st.semdFree, st.semdKey[..], old(st.mem.lists), st.mem.lists);
    }
  }

  lemma LinkedIfReady(st: Store, p: nat)
    requires st.Valid() && Unblocked(st.k, p)
    ensures PList(p) !in st.mem.lists && PcbFreeH in st.mem.lists
    ensures p in st.k.ready ==> PList(p) in st.mem.home && st.mem.home[PList(p)] == ReadyQ
    ensures p !in st.k.ready ==> PList(p) !in st.mem.home
  {
    hide Rep;
    RepBasics(st.k, st.asl, st.semdFree, st.semdKey[..], st.mem.lists);
    if p in st.k.ready {
      var i :| 0 <= i < |st.k.ready| && st.k.ready[i] == p;
      assert PLists(st.k.ready)[i] == PList(p);
    } else {
      UnlinkedAt(st, p);
    }
  }

  /** What allocPcb does: the first free PCB leaves the free list with all its fields reset. */
  function Alloc(k: K): K
    requires Shape(k) && k.free != [] && k.free[0] < MAXPROC
  {
    var p := k.free[0];
    k.(free := k.free[1..],
       pcb := k.pcb[p := Pcb(None, None, k.nextPid, PState(0, 0))],
       children := k.children[p := []],
       nextPid := k.nextPid + 1)
  }

  /** A free PCB is childless, parentless and in range. */
  lemma FreeIsBare(k: K, p: nat)
    requires KernelInv.Inv(k) && p in k.free
    ensures Shape(k) && p < MAXPROC && k.children[p] == [] && k.pcb[p].parent == None
    ensures forall q: nat {:trigger k.children[q]} :: q < MAXPROC ==> p !in k.children[q]
    ensures p !in k.free[1..] || k.free[0] != p
    ensures p !in k.ready && forall key :: key in k.blocked ==> p !in k.blocked[key]
  {
    var loc: seq<KernelInv.Place> :| KernelInv.InvAt(k, loc);
    assert KernelInv.Siblings(k.children[p], k.pcb, p);
    KernelInv.HasMember(k.children[p]);
    forall q: nat {:trigger k.children[q]} | q < MAXPROC ensures p !in k.children[q] {
      assert KernelInv.Siblings(k.children[q], k.pcb, q);
    }
    forall key | key in k.blocked ensures p !in k.blocked[key] {
      assert KernelInv.Holds(k.blocked[key], loc, KernelInv.InQueue(key));
    }
    KernelInv.HoldsPop(k.free, loc, KernelInv.InFree, KernelInv.InReady);
  }

  /** The list work of allocPcb: unlink the first free node, then self-link its three fields. */
  method TakeFree(mem: ListX.ListMem<Addr>, ghost free: seq<nat>) returns (p: nat)
    requires mem.Valid() && PcbFreeH in mem.lists && mem.lists[PcbFreeH] == PLists(free) && free != []
    requires PSib(free[0]) !in mem.home && PSib(free[0]) !in mem.lists
    requires PList(free[0]) !in mem.lists && PChild(free[0]) !in mem.home
    requires PChild(free[0]) in mem.lists ==> mem.lists[PChild(free[0])] == []
    modifies mem
    ensures mem.Valid() && p == free[0]
    ensures mem.lists == old(mem.lists)[PcbFreeH := PLists(free[1..])][PChild(p) := []]
  {
    mem.StepAt(PcbFreeH, 0);
    var removed := mem.next[PcbFreeH];
    p := removed.p;
    RemoveHead(PLists(free));
    assert PLists(free)[1..] == PLists(free[1..]);
    mem.ListDel(removed, PcbFreeH, 0);
    mem.InitListHead(PList(p), false);
    mem.InitListHead(PChild(p), true);
    mem.InitListHead(PSib(p), false);
  }

  /** allocPcb */
  method AllocPcb(st: Store) returns (r: Option<nat>)
    requires st.Valid() && KernelInv.Inv(st.k)
    modifies st`k, st`nextPid, st.mem, st.pcbTable
    ensures st.Valid()
    ensures old(st.k).free == [] ==> r == None && st.k == old(st.k)
    ensures old(st.k).free != [] ==>
      r == Some(old(st.k).free[0]) && r.value < MAXPROC && st.k == Alloc(old(st.k))
  {
    hide KernelInv.Inv, Rep;
    RepBasics(st.k, st.asl, st.semdFree, st.semdKey[..], st.mem.lists);
    ghost var k0 := st.k;
    var empty := st.mem.ListEmpty(PcbFreeH);
    if empty {
      return None;
    }
    AllocPre(k0, st.asl, st.semdFree, st.semdKey[..], st.mem.lists, st.mem.home);
    var p := TakeFree(st.mem, k0.free);
    st.pcbTable[p] := Pcb(None, None, st.nextPid, PState(0, 0));
    st.nextPid := st.nextPid + 1;
    st.k := Alloc(k0);
    AllocRep(k0, st.asl, st.semdFree, st.semdKey[..], old(st.mem.lists), st.mem.lists);
    return Some(p);
  }

  lemma AllocPre(k: K, asl: seq<nat>, semdFree: seq<nat>, keys: seq<Key>, lists: Lists, home: map<Addr, Addr>)
    requires KernelInv.Inv(k) && Rep(k, asl, semdFree, keys, lists) && ListX.Separate(lists, home) && k.free != []
    ensures var p := k.free[0];
            && p < MAXPROC && k.children[p] == []
            && PSib(p) !in home && PSib(p) !in lists && PList(p) !in lists && PChild(p) !in home
            && (PChild(p) in lists ==> lists[PChild(p)] == [])
  {
    var p := k.free[0];
    assert p in k.free;
    FreeIsBare(k, p);
    NoSiblings(k, asl, semdFree, keys, lists, home, p);
    LinkedWhere(k, asl, semdFree, keys, lists, home, PChild(p));
    assert PSibs([]) == [];
  }

  lemma AllocRep(k: K, asl: seq<nat>, semdFree: seq<nat>, keys: seq<Key>, lists: Lists, lists': Lists)
    requires Rep(k, asl, semdFree, keys, lists) && k.free != [] && k.free[0] < MAXPROC
    requires k.children[k.free[0]] == []
    requires lists' == lists[PcbFreeH := PLists(k.free[1..])][PChild(k.free[0]) := []]
    ensures Rep(Alloc(k), asl, semdFree, keys, lists')
  {
    var p, k' := k.free[0], Alloc(k);
    AslFrame(k.blocked, asl, semdFree, keys, lists, lists');
    forall q: nat {:trigger PChild(q)} | q < MAXPROC
      ensures if PChild(q) in lists' then lists'[PChild(q)] == PSibs(k'.children[q])
              else k'.children[q] == [] && q in k'.free
    {
      if q == p {
        assert PSibs([]) == [];
      } else {
        assert q in k.free ==> exists i :: 0 < i < |k.free| && k.free[i] == q && k.free[1..][i - 1] == q;
      }
    }
  }

  // ---------------------------------------------------------------- the process tree

  lemma ChildList(st: Store, p: nat)
    requires st.Valid() && p < MAXPROC && Shape(st.k) && p !in st.k.free
    ensures PChild(p) in st.mem.lists && st.mem.lists[PChild(p)] == PSibs(st.k.children[p])
  {
  }

  method EmptyChild(st: Store, p: nat) returns (r: bool)
    requires st.Valid() && p < MAXPROC && p !in st.k.free
    ensures r <==> st.k.children[p] == []
  {
    r := st.mem.ListEmpty(PChild(p));
    assert |PSibs(st.k.children[p])| == |st.k.children[p]|;
  }

  lemma NoSiblingsAt(st: Store, p: nat)
    requires st.Valid() && p < MAXPROC
    requires forall q: nat {:trigger st.k.children[q]} :: q < MAXPROC ==> p !in st.k.children[q]
    ensures PSib(p) !in st.mem.home && PSib(p) !in st.mem.lists
  {
    NoSiblings(st.k, st.asl, st.semdFree, st.semdKey[..], st.mem.lists, st.mem.home, p);
  }

  /** insertChild */
  method InsertChild(st: Store, prnt: nat, p: nat)
    requires st.Valid() && prnt < MAXPROC && p < MAXPROC && prnt !in st.k.free
    requires forall q: nat {:trigger st.k.children[q]} :: q < MAXPROC ==> p !in st.k.children[q]
    modifies st`k, st.mem, st.pcbTable
    ensures st.Valid()
    ensures st.k == old(st.k).(children := old(st.k).children[prnt := [p] + old(st.k).children[prnt]],
                               pcb := old(st.k).pcb[p := old(st.k).pcb[p].(parent := Some(prnt))])
  {
    hide ListX.WellFormed;
    ghost var k0 := st.k;
    NoSiblingsAt(st, p);
    st.mem.ListAdd(PSib(p), PChild(prnt));
    st.pcbTable[p] := st.pcbTable[p].(parent := Some(prnt));
    st.k := k0.(children := k0.children[prnt := [p] + k0.children[prnt]],
                pcb := k0.pcb[p := k0.pcb[p].(parent := Some(prnt))]);
    assert PSibs(st.k.children[prnt]) == [PSib(p)] + PSibs(k0.children[prnt]);
    TreeRep(k0, st.k, st.asl, st.semdFree, st.semdKey[..], old(st.mem.lists), prnt);
  }

  /** removeChild */
  method RemoveChild(st: Store, p: nat) returns (r: Option<nat>)
    requires st.Valid() && p < MAXPROC && p !in st.k.free
    requires st.k.children[p] != [] ==> st.k.children[p][0] < MAXPROC
    modifies st`k, st.mem, st.pcbTable
    ensures st.Valid()
    ensures old(st.k).children[p] == [] ==> r == None && st.k == old(st.k)
    ensures old(st.k).children[p] != [] ==>
      r == Some(old(st.k).children[p][0]) && st.k == KernelTerm.CutFirstChild(old(st.k), p)
  {
    hide ListX.WellFormed, Rep;
    RepBasics(st.k, st.asl, st.semdFree, st.semdKey[..], st.mem.lists);
    ghost var k0 := st.k;
    ghost var cs := k0.children[p];
    ChildList(st, p);
    var e := EmptyChild(st, p);
    if e {
      return None;
    }
    st.mem.StepAt(PChild(p), 0);
    var child := st.mem.next[PChild(p)];
    RemoveHead(PSibs(cs));
    assert PSibs(cs)[1..] == PSibs(cs[1..]);
    st.mem.ListDel(child, PChild(p), 0);
    var c := child.p;
    st.pcbTable[c] := st.pcbTable[c].(parent := None);
    st.k := KernelTerm.CutFirstChild(k0, p);
    TreeRep(k0, st.k, st.asl, st.semdFree, st.semdKey[..], old(st.mem.lists), p);
    return Some(c);
  }

  /** The search of outChild: the node it stops at is unlinked whatever it is, so p must be there. */
  method OutSibling(mem: ListX.ListMem<Addr>, parent: nat, p: nat, ghost cs: seq<nat>)
    requires mem.Valid() && PChild(parent) in mem.lists && mem.lists[PChild(parent)] == PSibs(cs) && p in cs
    modifies mem
    ensures mem.Valid()
    ensures mem.lists == old(mem.lists)[PChild(parent) := PSibs(KernelState.Without(cs, {p}))]
  {
    ghost var i := 0;
    mem.StepAt(PChild(parent), 0);
    var child := mem.next[PChild(parent)];
    while child != PChild(parent) && child != PSib(p)
      invariant 0 <= i <= |cs| && child == ListX.After(PChild(parent), PSibs(cs), i)
      invariant mem.Valid() && mem.lists == old(mem.lists)
      invariant forall j :: 0 <= j < i ==> cs[j] != p
      decreases |cs| - i
    {
      mem.StepAt(PChild(parent), i + 1);
      child := mem.next[child];
      i := i + 1;
    }
    mem.StepAt(PChild(parent), i);
    assert i < |cs| && cs[i] == p;
    mem.ListDel(child, PChild(parent), i);
    PSibsRemove(cs, i);
    SiblingsNoDup(cs);
    KernelTerm.WithoutOne(cs, i);
  }

  /** outChild */
  method OutChild(st: Store, p: nat) returns (r: Option<nat>)
    requires st.Valid() && p < MAXPROC
    requires st.k.pcb[p].parent.Some? ==>
      && st.k.pcb[p].parent.value < MAXPROC && st.k.pcb[p].parent.value !in st.k.free
      && p in st.k.children[st.k.pcb[p].parent.value]
    modifies st`k, st.mem, st.pcbTable
    ensures st.Valid()
    ensures r == if old(st.k).pcb[p].parent == None then None else Some(p)
    ensures st.k == KernelTerm.OutChild(old(st.k), p)
  {
    ghost var k0 := st.k;
    if st.pcbTable[p].parent == None {
      return None;
    }
    var parent := st.pcbTable[p].parent.value;
    OutSibling(st.mem, parent, p, k0.children[parent]);
    st.pcbTable[p] := st.pcbTable[p].(parent := None);
    st.k := KernelTerm.OutChild(k0, p);
    TreeRep(k0, st.k, st.asl, st.semdFree, st.semdKey[..], old(st.mem.lists), parent);
    return Some(p);
  }
}
