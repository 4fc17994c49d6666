/** The kernel's static data: the PCB table, the semaphore descriptor table, the lists threaded
  * through them, and the global variables of phase2/initial.c; and what they represent. */
module KernelStore {
  import opened KernelTypes
  import opened KernelState
  import ListX

  // ---------------------------------------------------------------- representation

  ghost function PLists(q: seq<nat>): (r: seq<Addr>)
    ensures |r| == |q| && forall i :: 0 <= i < |q| ==> r[i] == PList(q[i])
  {
    seq(|q|, i requires 0 <= i < |q| => PList(q[i]))
  }

  ghost function PSibs(q: seq<nat>): (r: seq<Addr>)
    ensures |r| == |q| && forall i :: 0 <= i < |q| ==> r[i] == PSib(q[i])
  {
    seq(|q|, i requires 0 <= i < |q| => PSib(q[i]))
  }

  ghost function SLinks(q: seq<nat>): (r: seq<Addr>)
    ensures |r| == |q| && forall i :: 0 <= i < |q| ==> r[i] == SLink(q[i])
  {
    seq(|q|, i requires 0 <= i < |q| => SLink(q[i]))
  }

  type Lists = map<Addr, seq<Addr>>

  /** The free list and the ready queue. */
  ghost predicate RepQueues(k: K, lists: Lists) {
    && PcbFreeH in lists && lists[PcbFreeH] == PLists(k.free)
    && ReadyQ in lists && lists[ReadyQ] == PLists(k.ready)
  }

  /** The child lists; those of PCBs never allocated are not initialised yet. */
  ghost predicate RepTree(k: K, lists: Lists)
    requires Shape(k)
  {
    forall p: nat {:trigger PChild(p)} {:trigger k.children[p]} :: p < MAXPROC ==>
      if PChild(p) in lists then lists[PChild(p)] == PSibs(k.children[p])
      else k.children[p] == [] && p in k.free
  }

  /** Active descriptors (asl) and free ones share out the table; the active ones have different
    * keys, and each heads the queue of its key. */
  ghost predicate RepAsl(blocked: map<Key, seq<nat>>, asl: seq<nat>, semdFree: seq<nat>, keys: seq<Key>, lists: Lists) {
    && |keys| == MAXPROC
    && SemdH in lists && lists[SemdH] == SLinks(asl)
    && SemdFreeH in lists && lists[SemdFreeH] == SLinks(semdFree)
    && |asl| + |semdFree| == MAXPROC
    && (forall d :: d in asl ==> d < MAXPROC && d !in semdFree)
    && (forall d :: d in semdFree ==> d < MAXPROC)
    && (forall d :: d in asl ==> ActiveOk(blocked, keys[d], SProcq(d), lists))
    && (forall d, e :: d in asl && e in asl && keys[d] == keys[e] ==> d == e)
    && (forall key :: key in blocked ==> exists d :: d in asl && keys[d] == key)
    && (forall d: nat {:trigger SProcq(d)} :: SProcq(d) in lists && d !in asl ==> lists[SProcq(d)] == [])
  }

  ghost predicate ActiveOk(blocked: map<Key, seq<nat>>, key: Key, h: Addr, lists: Lists) {
    && key in blocked && blocked[key] != []
    && h in lists && lists[h] == PLists(blocked[key])
  }

  /** The list_heads that are heads. */
  ghost predicate RepHeads(lists: Lists) {
    forall h :: h in lists ==>
      match h
      case PChild(p) => p < MAXPROC
      case PList(_) => false
      case PSib(_) => false
      case SLink(_) => false
      case _ => true
  }

  ghost predicate Rep(k: K, asl: seq<nat>, semdFree: seq<nat>, keys: seq<Key>, lists: Lists) {
    && Shape(k)
    && RepQueues(k, lists)
    && RepTree(k, lists)
    && RepAsl(k.blocked, asl, semdFree, keys, lists)
    && RepHeads(lists)
  }

  class Store {
    const mem: ListX.ListMem<Addr>
    const pcbTable: array<Pcb>            // pcbFree_table
    const semdKey: array<Key>             // s_key of semd_table
    const current: array<Option<nat>>     // current_process
    var nextPid: int
    var processCount: int
    var word: map<Key, int>               // the semaphore words
    ghost var k: K
    ghost var asl: seq<nat>
    ghost var semdFree: seq<nat>

    /** The statics as the program is loaded: zeroed, no list initialised, nothing represented yet. */
    constructor ()
      ensures fresh(Parts()) && mem.Valid() && mem.lists == map[] && mem.home == map[]
      ensures pcbTable.Length == MAXPROC && semdKey.Length == MAXPROC && current.Length == NCPU
      ensures forall i :: 0 <= i < MAXPROC ==> pcbTable[i].parent == None
      ensures nextPid == 0
    {
      mem := new ListX.ListMem<Addr>();
      pcbTable := new Pcb[MAXPROC](_ => Pcb(None, None, 0, PState(0, 0)));
      semdKey := new Key[MAXPROC](_ => Dev(0));
      current := new Option<nat>[NCPU](_ => None);
      nextPid, processCount, word := 0, 0, map[];
      k := K([], [], [], map[], map[], [], [], 0, 0);
      asl, semdFree := [], [];
    }

    ghost function Parts(): set<object> {
      {this, mem, pcbTable, semdKey, current}
    }

    /** The fields represent the abstract kernel state k. */
    ghost predicate Valid()
      reads this, mem, pcbTable, semdKey, current
    {
      && mem.Valid()
      && Rep(k, asl, semdFree, semdKey[..], mem.lists)
      && k.pcb == pcbTable[..]
      && k.running == current[..]
      && k.val == word
      && k.nextPid == nextPid
      && k.count == processCount
    }
  }

  // ---------------------------------------------------------------- frames of the representation

  ghost predicate Agree(lists: Lists, lists': Lists, h: Addr) {
    (h in lists' <==> h in lists) && (h in lists ==> lists'[h] == lists[h])
  }

  lemma AslFrame(blocked: map<Key, seq<nat>>, asl: seq<nat>, semdFree: seq<nat>, keys: seq<Key>,
                 lists: Lists, lists': Lists)
    requires RepAsl(blocked, asl, semdFree, keys, lists)
    requires Agree(lists, lists', SemdH) && Agree(lists, lists', SemdFreeH)
    requires forall d: nat :: Agree(lists, lists', SProcq(d))
    ensures RepAsl(blocked, asl, semdFree, keys, lists')
  {
    forall d | d in asl ensures ActiveOk(blocked, keys[d], SProcq(d), lists') {
      assert ActiveOk(blocked, keys[d], SProcq(d), lists) && Agree(lists, lists', SProcq(d));
    }
    forall d: nat {:trigger SProcq(d)} | SProcq(d) in lists' && d !in asl ensures lists'[SProcq(d)] == [] {
      assert Agree(lists, lists', SProcq(d));
    }
  }

  lemma TreeFrame(k: K, k': K, lists: Lists, lists': Lists)
    requires Shape(k) && RepTree(k, lists)
    requires Shape(k') && k'.children == k.children
    requires forall p: nat :: p < MAXPROC ==> Agree(lists, lists', PChild(p))
    requires forall p: nat :: p < MAXPROC && p in k.free && PChild(p) !in lists ==> p in k'.free
    ensures RepTree(k', lists')
  {
    forall p: nat {:trigger PChild(p)} {:trigger k'.children[p]} | p < MAXPROC
      ensures if PChild(p) in lists' then lists'[PChild(p)] == PSibs(k'.children[p])
              else k'.children[p] == [] && p in k'.free
    {
      assert Agree(lists, lists', PChild(p));
    }
  }

  /** Changes of the free list and the ready queue leave the rest of the representation alone. */
  lemma QueuesRep(k: K, k': K, asl: seq<nat>, semdFree: seq<nat>, keys: seq<Key>, lists: Lists, lists': Lists)
    requires Rep(k, asl, semdFree, keys, lists)
    requires Shape(k') && k'.children == k.children && k'.blocked == k.blocked
    requires lists' == lists[PcbFreeH := PLists(k'.free)][ReadyQ := PLists(k'.ready)]
    requires forall p: nat :: p < MAXPROC && p in k.free && PChild(p) !in lists ==> p in k'.free
    ensures Rep(k', asl, semdFree, keys, lists')
  {
    AslFrame(k.blocked, asl, semdFree, keys, lists, lists');
    TreeFrame(k, k', lists, lists');
  }

  lemma TreeRep(k: K, k': K, asl: seq<nat>, semdFree: seq<nat>, keys: seq<Key>, lists: Lists, p: nat)
    requires Rep(k, asl, semdFree, keys, lists) && p < MAXPROC && PChild(p) in lists
    requires Shape(k') && k' == k.(children := k'.children, pcb := k'.pcb)
    requires forall q :: 0 <= q < MAXPROC && q != p ==> k'.children[q] == k.children[q]
    ensures Rep(k', asl, semdFree, keys, lists[PChild(p) := PSibs(k'.children[p])])
  {
    var lists' := lists[PChild(p) := PSibs(k'.children[p])];
    AslFrame(k.blocked, asl, semdFree, keys, lists, lists');
    forall q: nat {:trigger PChild(q)} | q < MAXPROC
      ensures if PChild(q) in lists' then lists'[PChild(q)] == PSibs(k'.children[q])
              else k'.children[q] == [] && q in k'.free
    {
      assert q != p ==> k'.children[q] == k.children[q];
    }
  }

  // ---------------------------------------------------------------- facts about the representation

  /** What Rep says of the table sizes and the four fixed lists. */
  lemma RepBasics(k: K, asl: seq<nat>, semdFree: seq<nat>, keys: seq<Key>, lists: Lists)
    requires Rep(k, asl, semdFree, keys, lists)
    ensures Shape(k) && |keys| == MAXPROC
    ensures PcbFreeH in lists && lists[PcbFreeH] == PLists(k.free)
    ensures ReadyQ in lists && lists[ReadyQ] == PLists(k.ready)
    ensures SemdH in lists && lists[SemdH] == SLinks(asl)
    ensures SemdFreeH in lists && lists[SemdFreeH] == SLinks(semdFree)
    ensures forall d :: d in asl || d in semdFree ==> d < MAXPROC
    ensures forall d :: d in asl ==> ActiveOk(k.blocked, keys[d], SProcq(d), lists)
    ensures forall key :: key in k.blocked ==> exists d :: d in asl && keys[d] == key
    ensures forall d: nat :: SLink(d) !in lists && PList(d) !in lists && PSib(d) !in lists
  {
  }

  lemma PListsRemove(q: seq<nat>, i: nat)
    requires i < |q|
    ensures ListX.Remove(PLists(q), i) == PLists(q[..i] + q[i + 1..])
  {
  }

  lemma PSibsRemove(q: seq<nat>, i: nat)
    requires i < |q|
    ensures ListX.Remove(PSibs(q), i) == PSibs(q[..i] + q[i + 1..])
  {
  }

  lemma SLinksRemove(q: seq<nat>, i: nat)
    requires i < |q|
    ensures ListX.Remove(SLinks(q), i) == SLinks(q[..i] + q[i + 1..])
  {
  }

  lemma RemoveHead<A>(s: seq<A>)
    requires s != []
    ensures ListX.Remove(s, 0) == s[1..]
  {
  }

  /** Where a linked address is linked: process nodes on the free list, the ready queue or the
    * queue of a semaphore, sibling nodes on a child list, descriptors on one of their two lists. */
  lemma LinkedWhere(k: K, asl: seq<nat>, semdFree: seq<nat>, keys: seq<Key>, lists: Lists,
                    home: map<Addr, Addr>, a: Addr)
    requires Rep(k, asl, semdFree, keys, lists) && ListX.Separate(lists, home)
    ensures a in home ==>
      match a
      case PList(p) => p in k.free || p in k.ready || exists key :: key in k.blocked && p in k.blocked[key]
      case PSib(c) => exists q: nat :: q < MAXPROC && c in k.children[q]
      case SLink(d) => d in asl || d in semdFree
      case _ => false
  {
    if a in home {
      var h := home[a];
      var i :| 0 <= i < |lists[h]| && lists[h][i] == a;
      match h {
        case PcbFreeH => assert k.free[i] in k.free;
        case ReadyQ => assert k.ready[i] in k.ready;
        case SemdH => assert asl[i] in asl;
        case SemdFreeH => assert semdFree[i] in semdFree;
        case SProcq(d) =>
          assert d in asl;
          assert ActiveOk(k.blocked, keys[d], h, lists);
          assert k.blocked[keys[d]][i] in k.blocked[keys[d]];
        case PChild(q) =>
          assert lists[h] == PSibs(k.children[q]);
          assert k.children[q][i] in k.children[q];
        case _ =>
      }
    }
  }

  /** A PCB on none of the kernel's queues is not linked through p_list. */
  lemma Unlinked(k: K, asl: seq<nat>, semdFree: seq<nat>, keys: seq<Key>, lists: Lists, home: map<Addr, Addr>, p: nat)
    requires Rep(k, asl, semdFree, keys, lists) && ListX.Separate(lists, home)
    requires p !in k.free && p !in k.ready && forall key :: key in k.blocked ==> p !in k.blocked[key]
    ensures PList(p) !in home && PList(p) !in lists
  {
    LinkedWhere(k, asl, semdFree, keys, lists, home, PList(p));
  }

  lemma UnlinkedAt(st: Store, p: nat)
    requires st.Valid()
    requires p !in st.k.free && p !in st.k.ready && forall key :: key in st.k.blocked ==> p !in st.k.blocked[key]
    ensures PList(p) !in st.mem.home && PList(p) !in st.mem.lists
  {
    Unlinked(st.k, st.asl, st.semdFree, st.semdKey[..], st.mem.lists, st.mem.home, p);
  }

  /** A PCB without parent is not linked through p_sib. */
  lemma NoSiblings(k: K, asl: seq<nat>, semdFree: seq<nat>, keys: seq<Key>, lists: Lists, home: map<Addr, Addr>, c: nat)
    requires Rep(k, asl, semdFree, keys, lists) && ListX.Separate(lists, home)
    requires forall p: nat {:trigger k.children[p]} :: p < MAXPROC ==> c !in k.children[p]
    ensures PSib(c) !in home && PSib(c) !in lists
  {
    LinkedWhere(k, asl, semdFree, keys, lists, home, PSib(c));
  }

  lemma QueueNoDup(q: seq<nat>)
    requires ListX.NoDup(PLists(q))
    ensures ListX.NoDup(q)
  {
    forall i, j | 0 <= i < |q| && 0 <= j < |q| && q[i] == q[j] ensures i == j {
      assert PLists(q)[i] == PLists(q)[j];
    }
  }

  lemma SiblingsNoDup(q: seq<nat>)
    requires ListX.NoDup(PSibs(q))
    ensures ListX.NoDup(q)
  {
    forall i, j | 0 <= i < |q| && 0 <= j < |q| && q[i] == q[j] ensures i == j {
      assert PSibs(q)[i] == PSibs(q)[j];
    }
  }

  lemma DescriptorsNoDup(q: seq<nat>)
    requires ListX.NoDup(SLinks(q))
    ensures ListX.NoDup(q)
  {
    forall i, j | 0 <= i < |q| && 0 <= j < |q| && q[i] == q[j] ensures i == j {
      assert SLinks(q)[i] == SLinks(q)[j];
    }
  }

  /** There is one active descriptor for every active semaphore. */
  lemma {:induction false} KeysOfDescriptors(keys: seq<Key>, asl: seq<nat>, S: set<Key>)
    requires ListX.NoDup(asl) && forall d :: d in asl ==> d < |keys|
    requires forall d, e :: d in asl && e in asl && keys[d] == keys[e] ==> d == e
    requires forall d :: d in asl ==> keys[d] in S
    requires forall key :: key in S ==> exists d :: d in asl && keys[d] == key
    ensures |S| == |asl|
  {
    if asl == [] {
      assert S == {};
    } else {
      var d, rest := asl[0], asl[1..];
      assert d in asl;
      assert forall i :: 0 <= i < |rest| ==> rest[i] == asl[i + 1] && rest[i] in asl;
      assert d !in rest;
      forall key | key in S - {keys[d]} ensures exists e :: e in rest && keys[e] == key {
        var e :| e in asl && keys[e] == key;
        var i :| 0 <= i < |asl| && asl[i] == e;
        assert rest[i - 1] == e;
      }
      KeysOfDescriptors(keys, rest, S - {keys[d]});
    }
  }

  lemma ActiveCount(blocked: map<Key, seq<nat>>, asl: seq<nat>, semdFree: seq<nat>, keys: seq<Key>, lists: Lists)
    requires RepAsl(blocked, asl, semdFree, keys, lists) && ListX.NoDup(asl)
    ensures |blocked| == |asl|
  {
    forall d | d in asl ensures keys[d] in blocked.Keys {
      assert ActiveOk(blocked, keys[d], SProcq(d), lists);
    }
    KeysOfDescriptors(keys, asl, blocked.Keys);
  }
}
