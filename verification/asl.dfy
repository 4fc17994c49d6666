/** phase1/asl.c: the active semaphore list.  The table of descriptors and its two lists represent
  * the map `k.blocked` from the address of each active semaphore to its queue. */
module AslC {
  import opened KernelTypes
  import opened KernelState
  import opened KernelStore
  import opened PcbC
  import KernelTerm
  import ListX

  // ---------------------------------------------------------------- representation changes

  lemma DropMembers(q: seq<nat>, i: nat)
    requires i < |q| && ListX.NoDup(q)
    ensures forall d :: d in ListX.Remove(q, i) <==> d in q && d != q[i]
  {
    KernelTerm.WithoutOne(q, i);
    KernelTerm.WithoutMembers(q, {q[i]});
  }

  /** The queue of one active descriptor changes and stays non-empty. */
  lemma QueueRep(blocked: map<Key, seq<nat>>, asl: seq<nat>, semdFree: seq<nat>, keys: seq<Key>, lists: Lists,
                 d: nat, q: seq<nat>)
    requires RepAsl(blocked, asl, semdFree, keys, lists) && d in asl && q != []
    ensures RepAsl(blocked[keys[d] := q], asl, semdFree, keys, lists[SProcq(d) := PLists(q)])
  {
    var lists', blocked' := lists[SProcq(d) := PLists(q)], blocked[keys[d] := q];
    forall e | e in asl ensures ActiveOk(blocked', keys[e], SProcq(e), lists') {
      assert ActiveOk(blocked, keys[e], SProcq(e), lists);
    }
  }

  /** The queue of the i-th active descriptor became empty: the descriptor goes to the free list. */
  lemma RetireRep(blocked: map<Key, seq<nat>>, asl: seq<nat>, semdFree: seq<nat>, keys: seq<Key>, lists: Lists, i: nat)
    requires RepAsl(blocked, asl, semdFree, keys, lists) && i < |asl| && ListX.NoDup(asl)
    ensures asl[i] < MAXPROC
    ensures RepAsl(blocked - {keys[asl[i]]}, ListX.Remove(asl, i), [asl[i]] + semdFree, keys,
                   lists[SProcq(asl[i]) := []][SemdH := SLinks(ListX.Remove(asl, i))]
                        [SemdFreeH := SLinks([asl[i]] + semdFree)])
  {
    var d := asl[i];
    assert d in asl;
    var blocked', asl', free' := blocked - {keys[d]}, ListX.Remove(asl, i), [d] + semdFree;
    var lists' := lists[SProcq(d) := []][SemdH := SLinks(asl')][SemdFreeH := SLinks(free')];
    DropMembers(asl, i);
    forall e | e in asl' ensures ActiveOk(blocked', keys[e], SProcq(e), lists') {
      assert ActiveOk(blocked, keys[e], SProcq(e), lists);
    }
    forall key | key in blocked' ensures exists e :: e in asl' && keys[e] == key {
      var e :| e in asl && keys[e] == key;
      assert e in asl';
    }
  }

  /** The first free descriptor becomes active for a new key with the single waiter p. */
  lemma ActivateRep(blocked: map<Key, seq<nat>>, asl: seq<nat>, semdFree: seq<nat>, keys: seq<Key>, lists: Lists,
                    key: Key, p: nat)
    requires RepAsl(blocked, asl, semdFree, keys, lists) && semdFree != [] && key !in blocked
    requires ListX.NoDup(semdFree)
    ensures semdFree[0] < MAXPROC
    ensures var d := semdFree[0];
      RepAsl(blocked[key := [p]], asl + [d], semdFree[1..], keys[d := key],
             lists[SemdFreeH := SLinks(semdFree[1..])][SemdH := SLinks(asl + [d])][SProcq(d) := PLists([p])])
  {
    var d := semdFree[0];
    assert d in semdFree;
    ActivateActive(blocked, asl, semdFree, keys, lists, key, p);
    ActivateSplits(asl, semdFree);
    hide ActiveOk, ListX.NoDup, SLinks, PLists;
  }

  /** The first free descriptor changes sides. */
  lemma ActivateSplits(asl: seq<nat>, semdFree: seq<nat>)
    requires semdFree != [] && ListX.NoDup(semdFree)
    ensures forall e :: e in semdFree[1..] <==> e in semdFree && e != semdFree[0]
    ensures forall e :: e in asl + [semdFree[0]] <==> e in asl || e == semdFree[0]
  {
    assert semdFree == [semdFree[0]] + semdFree[1..];
  }

  lemma ActivateActive(blocked: map<Key, seq<nat>>, asl: seq<nat>, semdFree: seq<nat>, keys: seq<Key>, lists: Lists,
                       key: Key, p: nat)
    requires RepAsl(blocked, asl, semdFree, keys, lists) && semdFree != [] && key !in blocked && semdFree[0] < MAXPROC
    requires semdFree[0] !in asl
    ensures var d := semdFree[0];
      var blocked', keys' := blocked[key := [p]], keys[d := key];
      var lists' := lists[SemdFreeH := SLinks(semdFree[1..])][SemdH := SLinks(asl + [d])][SProcq(d) := PLists([p])];
      && (forall e :: e in asl || e == d ==> ActiveOk(blocked', keys'[e], SProcq(e), lists'))
      && (forall e, f :: e in asl + [d] && f in asl + [d] && keys'[e] == keys'[f] ==> e == f)
      && (forall k :: k in blocked' ==> exists e :: e in asl + [d] && keys'[e] == k)
  {
    var d := semdFree[0];
    var blocked', keys' := blocked[key := [p]], keys[d := key];
    var lists' := lists[SemdFreeH := SLinks(semdFree[1..])][SemdH := SLinks(asl + [d])][SProcq(d) := PLists([p])];
    forall e | e in asl || e == d ensures ActiveOk(blocked', keys'[e], SProcq(e), lists') {
      assert e in asl ==> ActiveOk(blocked, keys[e], SProcq(e), lists);
    }
    forall k | k in blocked' ensures exists e :: e in asl + [d] && keys'[e] == k {
      if k == key {
        assert d in asl + [d] && keys'[d] == k;
      } else {
        var e :| e in asl && keys[e] == k;
        assert e in asl + [d] && keys'[e] == k;
      }
    }
  }

  lemma AslRep(k: K, k': K, asl: seq<nat>, semdFree: seq<nat>, keys: seq<Key>,
               asl': seq<nat>, semdFree': seq<nat>, keys': seq<Key>, lists: Lists, lists': Lists)
    requires Rep(k, asl, semdFree, keys, lists)
    requires RepAsl(k'.blocked, asl', semdFree', keys', lists')
    requires Shape(k') && k'.free == k.free && k'.ready == k.ready && k'.children == k.children
    requires forall h :: h in lists' && h !in lists ==> h.SProcq?
    requires forall h :: h in lists && !h.SProcq? && h != SemdH && h != SemdFreeH ==>
      h in lists' && lists'[h] == lists[h]
    ensures Rep(k', asl', semdFree', keys', lists')
  {
    forall p: nat | p < MAXPROC ensures Agree(lists, lists', PChild(p)) {
    }
    TreeFrame(k, k', lists, lists');
  }

  // ---------------------------------------------------------------- searches

  /** Where a list_for_each loop over the ASL is after i descriptors. */
  function SemdPos(asl: seq<nat>, i: nat): Addr
    requires i <= |asl|
  {
    if i == |asl| then SemdH else SLink(asl[i])
  }

  lemma SemdStep(st: Store, i: nat)
    requires st.Valid() && i <= |st.asl|
    ensures i == 0 ==> SemdH in st.mem.next && st.mem.next[SemdH] == SemdPos(st.asl, 0)
    ensures i > 0 ==> SLink(st.asl[i - 1]) in st.mem.next && st.mem.next[SLink(st.asl[i - 1])] == SemdPos(st.asl, i)
    ensures i < |st.asl| ==> st.asl[i] in st.asl && st.asl[i] < st.semdKey.Length
  {
    hide Rep, ListX.WellFormed;
    RepBasics(st.k, st.asl, st.semdFree, st.semdKey[..], st.mem.lists);
    st.mem.StepAt(SemdH, i);
    if i < |st.asl| {
      assert st.asl[i] in st.asl;
    }
  }

  /** The search loop shared by the operations: the active descriptor of a key, if there is one. */
  method FindSemd(st: Store, key: Key) returns (r: Option<nat>, ghost i: nat)
    requires st.Valid()
    ensures r.Some? <==> key in st.k.blocked
    ensures r.Some? ==> i < |st.asl| && st.asl[i] == r.value && r.value in st.asl
    ensures r.Some? ==> r.value < st.semdKey.Length && st.semdKey[r.value] == key
  {
    hide Rep, ListX.WellFormed, SLinks, PLists;
    i := 0;
    SemdStep(st, 0);
    var pos := st.mem.next[SemdH];
    while pos != SemdH
      invariant 0 <= i <= |st.asl| && pos == SemdPos(st.asl, i)
      invariant forall j :: 0 <= j < i ==> st.asl[j] < st.semdKey.Length && st.semdKey[st.asl[j]] != key
      decreases |st.asl| - i
    {
      SemdStep(st, i);
      if st.semdKey[pos.d] == key {
        ActiveAt(st, pos.d, i);
        return Some(pos.d), i;
      }
      SemdStep(st, i + 1);
      pos := st.mem.next[pos];
      i := i + 1;
    }
    r := None;
    NotActive(st, key);
  }

  lemma NotActive(st: Store, key: Key)
    requires st.Valid()
    requires forall j :: 0 <= j < |st.asl| ==> st.asl[j] < st.semdKey.Length && st.semdKey[st.asl[j]] != key
    ensures key !in st.k.blocked
  {
    hide Rep, ListX.WellFormed;
    RepBasics(st.k, st.asl, st.semdFree, st.semdKey[..], st.mem.lists);
    forall d | d in st.asl ensures st.semdKey[..][d] != key {
      var j :| 0 <= j < |st.asl| && st.asl[j] == d;
    }
  }

  /** headBlocked */
  method HeadBlocked(st: Store, key: Key) returns (r: Option<nat>)
    requires st.Valid()
    ensures key in st.k.blocked ==> st.k.blocked[key] != [] && r == Some(st.k.blocked[key][0])
    ensures key !in st.k.blocked ==> r == None
  {
    var d, i := FindSemd(st, key);
    if d.None? {
      return None;
    }
    assert st.asl[i] in st.asl;
    assert ActiveOk(st.k.blocked, st.semdKey[..][d.value], SProcq(d.value), st.mem.lists);
    var found, first := st.mem.ListNext(SProcq(d.value));
    r := Some(first.p);
  }

  // ---------------------------------------------------------------- insertBlocked

  /** The list work of inserting p under a new key: take the first free descriptor, empty its queue,
    * move it to the tail of the ASL, put p in its queue. */
  method Activate(mem: ListX.ListMem<Addr>, p: nat, ghost asl: seq<nat>, ghost semdFree: seq<nat>) returns (d: nat)
    requires mem.Valid() && semdFree != []
    requires SemdH in mem.lists && mem.lists[SemdH] == SLinks(asl)
    requires SemdFreeH in mem.lists && mem.lists[SemdFreeH] == SLinks(semdFree)
    requires SLink(semdFree[0]) !in mem.lists && SProcq(semdFree[0]) !in mem.home
    requires SProcq(semdFree[0]) in mem.lists ==> mem.lists[SProcq(semdFree[0])] == []
    requires PList(p) !in mem.home && PList(p) !in mem.lists
    modifies mem
    ensures mem.Valid() && d == semdFree[0]
    ensures mem.lists ==
      old(mem.lists)[SemdFreeH := SLinks(semdFree[1..])][SemdH := SLinks(asl + [d])][SProcq(d) := PLists([p])]
  {
    hide ListX.WellFormed;
    mem.StepAt(SemdFreeH, 0);
    mem.HomeAt(SemdFreeH, 0);
    var newSem := mem.next[SemdFreeH];
    d := newSem.d;
    mem.InitListHead(SProcq(d), true);
    MoveToAsl(mem, newSem, asl, semdFree);
    mem.ListAddTail(PList(p), SProcq(d));
    assert [] + [PList(p)] == PLists([p]);
    assert mem.lists ==
      old(mem.lists)[SemdFreeH := SLinks(semdFree[1..])][SemdH := SLinks(asl + [d])][SProcq(d) := PLists([p])];
  }

  /** list_del from the free list, list_add_tail to the ASL. */
  method MoveToAsl(mem: ListX.ListMem<Addr>, link: Addr, ghost asl: seq<nat>, ghost semdFree: seq<nat>)
    requires mem.Valid() && semdFree != [] && link == SLink(semdFree[0]) && link !in mem.lists
    requires SemdH in mem.lists && mem.lists[SemdH] == SLinks(asl)
    requires SemdFreeH in mem.lists && mem.lists[SemdFreeH] == SLinks(semdFree)
    modifies mem
    ensures mem.Valid()
    ensures mem.lists == old(mem.lists)[SemdFreeH := SLinks(semdFree[1..])][SemdH := SLinks(asl + [semdFree[0]])]
    ensures mem.home == old(mem.home)[link := SemdH]
  {
    hide ListX.WellFormed;
    RemoveHead(SLinks(semdFree));
    assert SLinks(semdFree)[1..] == SLinks(semdFree[1..]);
    assert SLinks(asl) + [link] == SLinks(asl + [semdFree[0]]);
    mem.ListDel(link, SemdFreeH, 0);
    mem.ListAddTail(link, SemdH);
  }

  lemma ActivatePre(st: Store)
    requires st.Valid() && st.semdFree != []
    ensures SLink(st.semdFree[0]) !in st.mem.lists && SProcq(st.semdFree[0]) !in st.mem.home
    ensures SProcq(st.semdFree[0]) in st.mem.lists ==> st.mem.lists[SProcq(st.semdFree[0])] == []
  {
    assert st.semdFree[0] in st.semdFree;
    LinkedWhere(st.k, st.asl, st.semdFree, st.semdKey[..], st.mem.lists, st.mem.home, SProcq(st.semdFree[0]));
  }

  /** One free descriptor at least, or one per key already: when insertBlocked fails. */
  lemma FailsWhenNoneFree(st: Store)
    requires st.Valid()
    ensures ListX.NoDup(st.asl) && ListX.NoDup(st.semdFree)
    ensures |st.k.blocked| == |st.asl| && (|st.k.blocked| >= MAXPROC <==> st.semdFree == [])
  {
    DescriptorsNoDup(st.asl);
    DescriptorsNoDup(st.semdFree);
    ActiveCount(st.k.blocked, st.asl, st.semdFree, st.semdKey[..], st.mem.lists);
  }

  /** insertBlocked */
  method InsertBlocked(st: Store, semAdd: Key, p: nat) returns (full: bool)
    requires st.Valid() && p < MAXPROC && Nowhere(st.k, p)
    modifies st`k, st`asl, st`semdFree, st.mem, st.pcbTable, st.semdKey
    ensures st.Valid()
    ensures full <==> InsertFails(old(st.k).blocked, semAdd)
    ensures st.k == KernelState.InsertBlocked(old(st.k), semAdd, p)
  {
    hide Rep, ListX.WellFormed;
    RepBasics(st.k, st.asl, st.semdFree, st.semdKey[..], st.mem.lists);
    UnlinkedAt(st, p);
    FailsWhenNoneFree(st);
    var pos, i := FindSemd(st, semAdd);
    if pos.Some? {
      Enqueue(st, pos.value, semAdd, p);
      return false;
    }
    var none := st.mem.ListEmpty(SemdFreeH);
    assert |SLinks(st.semdFree)| == |st.semdFree|;
    if none {
      return true;
    }
    EnqueueNew(st, semAdd, p);
    return false;
  }

  /** Outside the queues, insertBlocked writes one field. */
  ghost predicate Marked(k: K, k': K, key: Key, p: nat)
    requires p < |k.pcb|
  {
    && k'.pcb == k.pcb[p := k.pcb[p].(semAdd := Some(key))]
    && k'.running == k.running && k'.val == k.val && k'.nextPid == k.nextPid && k'.count == k.count
  }

  lemma EnqueueMarks(k: K, key: Key, p: nat)
    requires p < |k.pcb| && key in k.blocked
    ensures Marked(k, KernelState.InsertBlocked(k, key, p), key, p)
  {
  }

  lemma EnqueueRep(k: K, asl: seq<nat>, semdFree: seq<nat>, keys: seq<Key>, lists: Lists, d: nat, p: nat)
    requires Rep(k, asl, semdFree, keys, lists) && p < MAXPROC
    requires d in asl && d < |keys| && keys[d] in k.blocked
    ensures SProcq(d) in lists && lists[SProcq(d)] == PLists(k.blocked[keys[d]])
    ensures Rep(KernelState.InsertBlocked(k, keys[d], p), asl, semdFree, keys,
                lists[SProcq(d) := lists[SProcq(d)] + [PList(p)]])
  {
    var key, q := keys[d], k.blocked[keys[d]];
    var k' := KernelState.InsertBlocked(k, key, p);
    assert ActiveOk(k.blocked, key, SProcq(d), lists);
    assert PLists(q) + [PList(p)] == PLists(q + [p]);
    assert k'.blocked == k.blocked[key := q + [p]];
    QueueRep(k.blocked, asl, semdFree, keys, lists, d, q + [p]);
    AslRep(k, k', asl, semdFree, keys, asl, semdFree, keys, lists, lists[SProcq(d) := PLists(q + [p])]);
  }

  method Enqueue(st: Store, d: nat, semAdd: Key, p: nat)
    requires st.Valid() && p < MAXPROC && PList(p) !in st.mem.home && PList(p) !in st.mem.lists
    requires d in st.asl && d < st.semdKey.Length && st.semdKey[d] == semAdd && semAdd in st.k.blocked
    modifies st`k, st.mem, st.pcbTable
    ensures st.Valid()
    ensures st.k == KernelState.InsertBlocked(old(st.k), semAdd, p)
  {
    hide Rep, ListX.WellFormed, KernelState.InsertBlocked;
    RepBasics(st.k, st.asl, st.semdFree, st.semdKey[..], st.mem.lists);
    EnqueueRep(st.k, st.asl, st.semdFree, st.semdKey[..], st.mem.lists, d, p);
    EnqueueMarks(st.k, semAdd, p);
    InsertProcQ(st.mem, SProcq(d), p);
    st.pcbTable[p] := st.pcbTable[p].(semAdd := Some(semAdd));
    st.k := KernelState.InsertBlocked(st.k, semAdd, p);
  }

  lemma EnqueueNewRep(k: K, asl: seq<nat>, semdFree: seq<nat>, keys: seq<Key>, lists: Lists, key: Key, p: nat)
    requires Rep(k, asl, semdFree, keys, lists) && p < MAXPROC
    requires key !in k.blocked && semdFree != [] && ListX.NoDup(semdFree) && !InsertFails(k.blocked, key)
    ensures semdFree[0] < MAXPROC
    ensures var d := semdFree[0];
      Rep(KernelState.InsertBlocked(k, key, p), asl + [d], semdFree[1..], keys[d := key],
          lists[SemdFreeH := SLinks(semdFree[1..])][SemdH := SLinks(asl + [d])][SProcq(d) := PLists([p])])
    ensures Marked(k, KernelState.InsertBlocked(k, key, p), key, p)
  {
    ActivateRep(k.blocked, asl, semdFree, keys, lists, key, p);
    var d, k' := semdFree[0], KernelState.InsertBlocked(k, key, p);
    assert [] + [p] == [p];
    AslRep(k, k', asl, semdFree, keys, asl + [d], semdFree[1..], keys[d := key], lists,
           lists[SemdFreeH := SLinks(semdFree[1..])][SemdH := SLinks(asl + [d])][SProcq(d) := PLists([p])]);
  }

  method EnqueueNew(st: Store, semAdd: Key, p: nat)
    requires st.Valid() && p < MAXPROC && PList(p) !in st.mem.home && PList(p) !in st.mem.lists
    requires semAdd !in st.k.blocked && st.semdFree != [] && ListX.NoDup(st.semdFree)
    requires !InsertFails(st.k.blocked, semAdd)
    modifies st`k, st`asl, st`semdFree, st.mem, st.pcbTable, st.semdKey
    ensures st.Valid()
    ensures st.k == KernelState.InsertBlocked(old(st.k), semAdd, p)
  {
    hide Rep, ListX.WellFormed, KernelState.InsertBlocked;
    RepBasics(st.k, st.asl, st.semdFree, st.semdKey[..], st.mem.lists);
    ActivatePre(st);
    EnqueueNewRep(st.k, st.asl, st.semdFree, st.semdKey[..], st.mem.lists, semAdd, p);
    var d := Activate(st.mem, p, st.asl, st.semdFree);
    st.semdKey[d] := semAdd;
    st.pcbTable[p] := st.pcbTable[p].(semAdd := Some(semAdd));
    st.asl, st.semdFree := st.asl + [d], st.semdFree[1..];
    st.k := KernelState.InsertBlocked(st.k, semAdd, p);
  }

  // ---------------------------------------------------------------- removeBlocked, outBlocked

  /** After a removal from the queue of the i-th active descriptor: when the queue is empty the
    * descriptor goes from the ASL to the head of the free list. */
  method RetireIfEmpty(mem: ListX.ListMem<Addr>, d: nat, ghost i: nat, ghost asl: seq<nat>, ghost semdFree: seq<nat>)
    returns (retired: bool)
    requires mem.Valid() && i < |asl| && asl[i] == d
    requires SemdH in mem.lists && mem.lists[SemdH] == SLinks(asl)
    requires SemdFreeH in mem.lists && mem.lists[SemdFreeH] == SLinks(semdFree)
    requires SProcq(d) in mem.lists && SLink(d) !in mem.lists
    modifies mem
    ensures mem.Valid()
    ensures retired <==> old(mem.lists)[SProcq(d)] == []
    ensures !retired ==> mem.lists == old(mem.lists) && mem.home == old(mem.home)
    ensures retired ==>
      mem.lists == old(mem.lists)[SemdH := SLinks(ListX.Remove(asl, i))][SemdFreeH := SLinks([d] + semdFree)]
    ensures retired ==> mem.home == old(mem.home)[SLink(d) := SemdFreeH]
  {
    hide ListX.WellFormed;
    retired := mem.ListEmpty(SProcq(d));
    if retired {
      mem.HomeAt(SemdH, i);
      mem.ListDel(SLink(d), SemdH, i);
      SLinksRemove(asl, i);
      mem.ListAdd(SLink(d), SemdFreeH);
      assert [SLink(d)] + SLinks(semdFree) == SLinks([d] + semdFree);
    }
  }

  /** The descriptor found by a search and the queue it heads. */
  lemma ActiveAt(st: Store, d: nat, i: nat)
    requires st.Valid() && i < |st.asl| && st.asl[i] == d
    ensures d < st.semdKey.Length && st.semdKey[d] in st.k.blocked && st.k.blocked[st.semdKey[d]] != []
    ensures SProcq(d) in st.mem.lists && st.mem.lists[SProcq(d)] == PLists(st.k.blocked[st.semdKey[d]])
    ensures SLink(d) !in st.mem.lists && ListX.NoDup(st.asl)
  {
    assert st.asl[i] in st.asl;
    assert ActiveOk(st.k.blocked, st.semdKey[..][d], SProcq(d), st.mem.lists);
    DescriptorsNoDup(st.asl);
  }

  /** The state after the queue of an active key changed to q. */
  function Requeue(k: K, key: Key, q: seq<nat>): K {
    k.(blocked := if q == [] then k.blocked - {key} else k.blocked[key := q])
  }

  lemma RequeueRep(k: K, asl: seq<nat>, semdFree: seq<nat>, keys: seq<Key>, lists: Lists, i: nat, q: seq<nat>)
    requires Rep(k, asl, semdFree, keys, lists) && i < |asl| && ListX.NoDup(asl) && q != []
    requires asl[i] < |keys| && keys[asl[i]] in k.blocked
    ensures Rep(Requeue(k, keys[asl[i]], q), asl, semdFree, keys, lists[SProcq(asl[i]) := PLists(q)])
  {
    hide ActiveOk;
    var d := asl[i];
    assert d in asl;
    QueueRep(k.blocked, asl, semdFree, keys, lists, d, q);
    AslRep(k, Requeue(k, keys[d], q), asl, semdFree, keys, asl, semdFree, keys, lists, lists[SProcq(d) := PLists(q)]);
  }

  lemma RequeueEmptyRep(k: K, asl: seq<nat>, semdFree: seq<nat>, keys: seq<Key>, lists: Lists, i: nat)
    requires Rep(k, asl, semdFree, keys, lists) && i < |asl| && ListX.NoDup(asl)
    requires asl[i] < |keys| && keys[asl[i]] in k.blocked
    ensures Rep(Requeue(k, keys[asl[i]], []), ListX.Remove(asl, i), [asl[i]] + semdFree, keys,
                lists[SProcq(asl[i]) := []][SemdH := SLinks(ListX.Remove(asl, i))]
                        [SemdFreeH := SLinks([asl[i]] + semdFree)])
  {
    hide RepAsl, ActiveOk, ListX.Remove;
    RepBasics(k, asl, semdFree, keys, lists);
    var d := asl[i];
    RetireAslRep(k, asl, semdFree, keys, lists, i);
    AslRep(k, Requeue(k, keys[d], []), asl, semdFree, keys, ListX.Remove(asl, i), [d] + semdFree, keys, lists,
           lists[SProcq(d) := []][SemdH := SLinks(ListX.Remove(asl, i))][SemdFreeH := SLinks([d] + semdFree)]);
  }

  lemma RetireAslRep(k: K, asl: seq<nat>, semdFree: seq<nat>, keys: seq<Key>, lists: Lists, i: nat)
    requires Rep(k, asl, semdFree, keys, lists) && i < |asl| && ListX.NoDup(asl)
    ensures asl[i] < |keys| && asl[i] < MAXPROC
    ensures RepAsl(Requeue(k, keys[asl[i]], []).blocked, ListX.Remove(asl, i), [asl[i]] + semdFree, keys,
                   lists[SProcq(asl[i]) := []][SemdH := SLinks(ListX.Remove(asl, i))]
                        [SemdFreeH := SLinks([asl[i]] + semdFree)])
  {
    RetireRep(k.blocked, asl, semdFree, keys, lists, i);
  }

  /** The tables hold what k says, apart from the lists. */
  ghost predicate TablesOk(st: Store)
    reads st, st.pcbTable, st.current
  {
    && st.k.pcb == st.pcbTable[..] && st.k.running == st.current[..] && st.k.val == st.word
    && st.k.nextPid == st.nextPid && st.k.count == st.processCount
  }

  /** End of a removal: the queue of descriptor d lost one element and became q. */
  lemma SettledRep(k: K, asl: seq<nat>, semdFree: seq<nat>, keys: seq<Key>, lists: Lists, i: nat, q: seq<nat>)
    requires Rep(k, asl, semdFree, keys, lists) && i < |asl| && ListX.NoDup(asl)
    requires asl[i] < |keys| && keys[asl[i]] in k.blocked
    ensures var k', lists' := Requeue(k, keys[asl[i]], q), lists[SProcq(asl[i]) := PLists(q)];
      && k'.pcb == k.pcb && k'.running == k.running && k'.val == k.val && k'.nextPid == k.nextPid && k'.count == k.count
      && (q != [] ==> Rep(k', asl, semdFree, keys, lists'))
      && (q == [] ==> lists' == lists[SProcq(asl[i]) := []])
      && (q == [] ==>
            Rep(k', ListX.Remove(asl, i), [asl[i]] + semdFree, keys,
                   lists'[SemdH := SLinks(ListX.Remove(asl, i))][SemdFreeH := SLinks([asl[i]] + semdFree)]))
  {
    hide Rep, Requeue;
    SameElsewhere(k, keys[asl[i]], q);
    if q == [] {
      assert PLists(q) == [];
      RequeueEmptyRep(k, asl, semdFree, keys, lists, i);
    } else {
      RequeueRep(k, asl, semdFree, keys, lists, i, q);
    }
  }

  lemma SameElsewhere(k: K, key: Key, q: seq<nat>)
    ensures var k' := Requeue(k, key, q);
      k'.pcb == k.pcb && k'.running == k.running && k'.val == k.val && k'.nextPid == k.nextPid && k'.count == k.count
  {
  }

  method Settle(st: Store, d: nat, ghost i: nat, ghost lists0: Lists, ghost q: seq<nat>)
    requires Rep(st.k, st.asl, st.semdFree, st.semdKey[..], lists0) && st.mem.Valid() && TablesOk(st)
    requires i < |st.asl| && st.asl[i] == d && ListX.NoDup(st.asl) && d < st.semdKey.Length
    requires st.semdKey[d] in st.k.blocked && SProcq(d) in lists0
    requires st.mem.lists == lists0[SProcq(d) := PLists(q)]
    modifies st`k, st`asl, st`semdFree, st.mem
    ensures st.Valid()
    ensures st.k == Requeue(old(st.k), st.semdKey[d], q)
  {
    hide Rep, ListX.WellFormed, Requeue, ActiveOk;
    RepBasics(st.k, st.asl, st.semdFree, st.semdKey[..], lists0);
    SettledRep(st.k, st.asl, st.semdFree, st.semdKey[..], lists0, i, q);
    assert |PLists(q)| == |q|;
    var retired := RetireIfEmpty(st.mem, d, i, st.asl, st.semdFree);
    st.k := Requeue(st.k, st.semdKey[d], q);
    if retired {
      assert PLists(q) == [];
      st.asl, st.semdFree := ListX.Remove(st.asl, i), [d] + st.semdFree;
    }
  }

  /** removeBlocked */
  method RemoveBlocked(st: Store, semAdd: Key) returns (r: Option<nat>)
    requires st.Valid()
    modifies st`k, st`asl, st`semdFree, st.mem
    ensures st.Valid()
    ensures semAdd !in old(st.k).blocked ==> r == None && st.k == old(st.k)
    ensures semAdd in old(st.k).blocked ==>
      && old(st.k).blocked[semAdd] != [] && r == Some(old(st.k).blocked[semAdd][0])
      && st.k == old(st.k).(blocked := Deq(old(st.k).blocked, semAdd))
  {
    hide Rep, ListX.WellFormed;
    var pos, i := FindSemd(st, semAdd);
    if pos.None? {
      return None;
    }
    ghost var k0, lists0 := st.k, st.mem.lists;
    ActiveAt(st, pos.value, i);
    ghost var q := k0.blocked[semAdd];
    r := RemoveProcQ(st.mem, SProcq(pos.value), q);
    Settle(st, pos.value, i, lists0, q[1..]);
  }

  /** outBlocked: p leaves the queue of the semaphore its PCB names, if it is in it. */
  method OutBlocked(st: Store, p: nat) returns (r: Option<nat>)
    requires st.Valid() && p < MAXPROC && st.k.pcb[p].semAdd.Some?
    modifies st`k, st`asl, st`semdFree, st.mem
    ensures st.Valid()
    ensures var key := old(st.k).pcb[p].semAdd.value;
            && (r == if key in old(st.k).blocked && p in old(st.k).blocked[key] then Some(p) else None)
            && st.k == old(st.k).(blocked := KernelTerm.OutBlocked(old(st.k).blocked, key, p))
  {
    hide Rep, ListX.WellFormed;
    RepBasics(st.k, st.asl, st.semdFree, st.semdKey[..], st.mem.lists);
    ghost var key := st.k.pcb[p].semAdd.value;
    var pos, i := FindSemd(st, st.pcbTable[p].semAdd.value);
    if pos.None? {
      return None;
    }
    ghost var k0, lists0 := st.k, st.mem.lists;
    ActiveAt(st, pos.value, i);
    ghost var q := k0.blocked[key];
    var found := OutProcQ(st.mem, SProcq(pos.value), p, q);
    if !found {
      KernelTerm.WithoutNone(q, {p});
      assert lists0 == lists0[SProcq(pos.value) := PLists(q)];
    }
    Settle(st, pos.value, i, lists0, KernelState.Without(q, {p}));
    r := if found then Some(p) else None;
  }

  // ---------------------------------------------------------------- searches by pid

  /** The two nested loops of getProc and outBlockedPid: the descriptor and the PCB. */
  method FindPid(st: Store, pid: int) returns (r: Option<(nat, nat)>, ghost i: nat)
    requires st.Valid() && Bounded(st.k)
    ensures r.Some? ==>
      && i < |st.asl| && st.asl[i] == r.value.0 && r.value.0 < st.semdKey.Length
      && st.semdKey[r.value.0] in st.k.blocked && r.value.1 in st.k.blocked[st.semdKey[r.value.0]]
      && r.value.1 < MAXPROC && st.k.pcb[r.value.1].pid == pid
    ensures r.None? ==>
      forall key, p :: key in st.k.blocked && p in st.k.blocked[key] ==> p < MAXPROC && st.k.pcb[p].pid != pid
  {
    hide Rep, ListX.WellFormed, SLinks, PLists, NoPid;
    assert |st.k.pcb| == MAXPROC by {
      RepBasics(st.k, st.asl, st.semdFree, st.semdKey[..], st.mem.lists);
    }
    i := 0;
    r := None;
    SemdStep(st, 0);
    var pos := st.mem.next[SemdH];
    while pos != SemdH
      invariant 0 <= i <= |st.asl| && pos == SemdPos(st.asl, i)
      invariant forall j :: 0 <= j < i ==> st.asl[j] < st.semdKey.Length && NoPid(st.k, st.semdKey[st.asl[j]], pid)
      decreases |st.asl| - i
    {
      var p := FindPidOf(st, pos.d, i, pid);
      if p.Some? {
        return Some((pos.d, p.value)), i;
      }
      SemdStep(st, i + 1);
      pos := st.mem.next[pos];
      i := i + 1;
    }
    NoPidAnywhere(st.k, st.asl, st.semdFree, st.semdKey[..], st.mem.lists, pid);
  }

  lemma NoPidAnywhere(k: K, asl: seq<nat>, semdFree: seq<nat>, keys: seq<Key>, lists: Lists, pid: int)
    requires Rep(k, asl, semdFree, keys, lists) && |k.pcb| == MAXPROC
    requires forall j :: 0 <= j < |asl| ==> asl[j] < |keys| && NoPid(k, keys[asl[j]], pid)
    ensures forall key, p :: key in k.blocked && p in k.blocked[key] ==> p < MAXPROC && k.pcb[p].pid != pid
  {
    forall key, p | key in k.blocked && p in k.blocked[key] ensures p < MAXPROC && k.pcb[p].pid != pid {
      var d :| d in asl && keys[d] == key;
      var j :| 0 <= j < |asl| && asl[j] == d;
      assert NoPid(k, keys[asl[j]], pid);
    }
  }

  ghost predicate NoPid(k: K, key: Key, pid: int) {
    key in k.blocked && forall p :: p in k.blocked[key] ==> p < |k.pcb| && k.pcb[p].pid != pid
  }

  method FindPidOf(st: Store, d: nat, ghost i: nat, pid: int) returns (r: Option<nat>)
    requires st.Valid() && Bounded(st.k) && i < |st.asl| && st.asl[i] == d
    ensures d < st.semdKey.Length && st.semdKey[d] in st.k.blocked
    ensures r.Some? ==> r.value in st.k.blocked[st.semdKey[d]] && r.value < MAXPROC && st.k.pcb[r.value].pid == pid
    ensures r.None? ==> NoPid(st.k, st.semdKey[d], pid)
  {
    hide Rep, ListX.WellFormed;
    RepBasics(st.k, st.asl, st.semdFree, st.semdKey[..], st.mem.lists);
    ActiveAt(st, d, i);
    r := FindPidIn(st, SProcq(d), st.k.blocked[st.semdKey[d]], pid);
  }

  /** Search of one process queue for a pid. */
  method FindPidIn(st: Store, h: Addr, ghost q: seq<nat>, pid: int) returns (r: Option<nat>)
    requires st.mem.Valid() && st.pcbTable.Length == MAXPROC && InRange(q)
    requires h in st.mem.lists && st.mem.lists[h] == PLists(q)
    ensures r.Some? ==> r.value in q && r.value < MAXPROC && st.pcbTable[r.value].pid == pid
    ensures r.None? ==> forall p :: p in q ==> p < MAXPROC && st.pcbTable[p].pid != pid
  {
    ghost var i := 0;
    st.mem.StepAt(h, 0);
    var pos := st.mem.next[h];
    while pos != h
      invariant 0 <= i <= |q| && pos == ListX.After(h, PLists(q), i)
      invariant forall j :: 0 <= j < i ==> q[j] < MAXPROC && st.pcbTable[q[j]].pid != pid
      decreases |q| - i
    {
      assert q[i] in q;
      if st.pcbTable[pos.p].pid == pid {
        return Some(pos.p);
      }
      st.mem.StepAt(h, i + 1);
      pos := st.mem.next[pos];
      i := i + 1;
    }
    st.mem.StepAt(h, i);
    r := None;
  }

  /** getProc */
  method GetProc(st: Store, pid: int) returns (r: Option<nat>)
    requires st.Valid() && Bounded(st.k)
    ensures r.Some? ==> r.value < MAXPROC && st.k.pcb[r.value].pid == pid
    ensures r.Some? ==> exists key :: key in st.k.blocked && r.value in st.k.blocked[key]
    ensures r.None? ==>
      forall key, p :: key in st.k.blocked && p in st.k.blocked[key] ==> p < MAXPROC && st.k.pcb[p].pid != pid
  {
    var f, i := FindPid(st, pid);
    r := if f.Some? then Some(f.value.1) else None;
  }

  /** outBlockedPid */
  method OutBlockedPid(st: Store, pid: int) returns (r: Option<nat>, ghost key: Key)
    requires st.Valid() && Bounded(st.k)
    modifies st`k, st`asl, st`semdFree, st.mem
    ensures st.Valid()
    ensures r.Some? ==>
      && r.value < MAXPROC && old(st.k).pcb[r.value].pid == pid
      && key in old(st.k).blocked && r.value in old(st.k).blocked[key]
      && st.k == old(st.k).(blocked := KernelTerm.OutBlocked(old(st.k).blocked, key, r.value))
    ensures r.None? ==> st.k == old(st.k)
    ensures r.None? ==>
      forall key, p :: key in st.k.blocked && p in st.k.blocked[key] ==> p < MAXPROC && st.k.pcb[p].pid != pid
  {
    hide Rep, ListX.WellFormed;
    var f, i := FindPid(st, pid);
    if f.None? {
      return None, Dev(0);
    }
    RepBasics(st.k, st.asl, st.semdFree, st.semdKey[..], st.mem.lists);
    var d, p := f.value.0, f.value.1;
    ghost var k0, lists0 := st.k, st.mem.lists;
    ActiveAt(st, d, i);
    key := st.semdKey[d];
    var found := OutProcQ(st.mem, SProcq(d), p, k0.blocked[key]);
    Settle(st, d, i, lists0, KernelState.Without(k0.blocked[key], {p}));
    r := if found then Some(p) else None;
  }
}
