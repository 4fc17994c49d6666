/** What every kernel state keeps: each PCB is in exactly one place, process_count counts the
  * allocated ones, the process tree is a forest ordered by pid. */
module KernelInv {
  import opened KernelTypes
  import opened KernelState
  import ListX

  // ---------------------------------------------------------------- the invariant

  datatype Place = InFree | InReady | OnCpu(c: nat) | InQueue(key: Key)

  /** q lists, each once, exactly the PCBs that `loc` puts in one place. */
  ghost predicate Holds(q: seq<nat>, loc: seq<Place>, place: Place) {
    && ListX.NoDup(q)
    && (forall p :: p in q ==> p < |loc| && loc[p] == place)
    && (forall p :: 0 <= p < |loc| && loc[p] == place ==> p in q)
  }

  /** `loc` names the one place of every PCB. */
  ghost predicate Placed(k: K, loc: seq<Place>)
    requires Shape(k)
  {
    && |loc| == MAXPROC
    && Holds(k.free, loc, InFree)
    && Holds(k.ready, loc, InReady)
    && (forall key :: key in k.blocked ==> Holds(k.blocked[key], loc, InQueue(key)))
    && (forall p :: 0 <= p < MAXPROC && loc[p].InQueue? ==> loc[p].key in k.blocked)
    && (forall c :: 0 <= c < NCPU && k.running[c].Some? ==>
          k.running[c].value < MAXPROC && loc[k.running[c].value] == OnCpu(c))
    && (forall p :: 0 <= p < MAXPROC && loc[p].OnCpu? ==> loc[p].c < NCPU && k.running[loc[p].c] == Some(p))
  }

  /** Active semaphores have waiters, and every waiter knows its semaphore. */
  ghost predicate QueuesOk(k: K)
    requires Shape(k)
  {
    forall key :: key in k.blocked ==>
      && k.blocked[key] != []
      && forall p :: p in k.blocked[key] ==> p < MAXPROC && k.pcb[p].semAdd == Some(key)
  }

  /** The list cs holds children of p only, each once. */
  ghost predicate Siblings(cs: seq<nat>, pcb: seq<Pcb>, p: nat) {
    ListX.NoDup(cs) && forall c :: c in cs ==> c < |pcb| && pcb[c].parent == Some(p)
  }

  ghost predicate TreeOk(k: K)
    requires Shape(k)
  {
    && (forall p: nat {:trigger k.children[p]} :: p < MAXPROC ==> Siblings(k.children[p], k.pcb, p))
    && (forall c :: 0 <= c < MAXPROC && k.pcb[c].parent.Some? ==>
          k.pcb[c].parent.value < MAXPROC && c in k.children[k.pcb[c].parent.value])
  }

  ghost predicate PidsOk(k: K)
    requires Shape(k)
  {
    && k.nextPid >= 0
    && (forall p :: 0 <= p < MAXPROC && p !in k.free ==> 0 <= k.pcb[p].pid < k.nextPid)
    && (forall p, q :: 0 <= p < MAXPROC && 0 <= q < MAXPROC && p !in k.free && q !in k.free ==>
          (k.pcb[p].pid == k.pcb[q].pid ==> p == q))
    && (forall c :: 0 <= c < MAXPROC && k.pcb[c].parent.Some? ==>
          && c !in k.free && k.pcb[c].parent.value !in k.free && k.pcb[c].parent.value < MAXPROC
          && k.pcb[k.pcb[c].parent.value].pid < k.pcb[c].pid)
  }

  ghost predicate InvAt(k: K, loc: seq<Place>) {
    && Shape(k)
    && Placed(k, loc)
    && QueuesOk(k)
    && TreeOk(k)
    && PidsOk(k)
    && k.count == MAXPROC - |k.free|
  }

  ghost predicate Inv(k: K) {
    exists loc :: InvAt(k, loc)
  }

  lemma InvBounded(k: K)
    requires Inv(k)
    ensures Bounded(k)
  {
    var loc: seq<Place> :| InvAt(k, loc);
    forall key | key in k.blocked ensures k.blocked[key] != [] && InRange(k.blocked[key]) {
      assert Holds(k.blocked[key], loc, InQueue(key));
    }
  }

  lemma HasMember(q: seq<nat>)
    ensures q == [] || exists p :: p in q
  {
    if q != [] { assert q[0] in q; }
  }

  // ---------------------------------------------------------------- moves between places

  lemma HoldsPush(q: seq<nat>, loc: seq<Place>, place: Place, p: nat)
    requires Holds(q, loc, place) && p < |loc| && loc[p] != place
    ensures Holds(q + [p], loc[p := place], place)
    ensures Holds([p] + q, loc[p := place], place)
  {
    var r, s, loc' := q + [p], [p] + q, loc[p := place];
    assert p !in q;
    forall x | x in q ensures x in r && x in s {
      var i :| 0 <= i < |q| && q[i] == x;
      assert r[i] == x && s[i + 1] == x;
    }
    assert r[|q|] == p && s[0] == p;
    assert ListX.NoDup(r) by {
      forall i, j | 0 <= i < |r| && 0 <= j < |r| && r[i] == r[j] ensures i == j {
        if i < |q| { assert q[i] in q; }
        if j < |q| { assert q[j] in q; }
      }
    }
    assert ListX.NoDup(s) by {
      forall i, j | 0 <= i < |s| && 0 <= j < |s| && s[i] == s[j] ensures i == j {
        if i > 0 { assert q[i - 1] in q; }
        if j > 0 { assert q[j - 1] in q; }
      }
    }
  }

  lemma HoldsPop(q: seq<nat>, loc: seq<Place>, place: Place, to: Place)
    requires Holds(q, loc, place) && q != [] && to != place
    ensures q[0] in q && q[0] < |loc| && loc[q[0]] == place
    ensures Holds(q[1..], loc[q[0] := to], place)
  {
    var p, r := q[0], q[1..];
    assert p in q;
    forall x | x in q && x != p ensures x in r {
      var i :| 0 <= i < |q| && q[i] == x;
      assert r[i - 1] == x;
    }
    forall x | x in r ensures x != p && x in q {
      var i :| 0 <= i < |r| && r[i] == x;
      assert q[i + 1] == x;
    }
  }

  lemma HoldsAside(q: seq<nat>, loc: seq<Place>, place: Place, p: nat, to: Place)
    requires Holds(q, loc, place) && p < |loc| && loc[p] != place && to != place
    ensures Holds(q, loc[p := to], place)
  {
  }

  /** A PCB moves from one place to another: every queue that is neither of the two stays as it was. */
  lemma OthersAside(k: K, loc: seq<Place>, p: nat, to: Place, key0: Key)
    requires InvAt(k, loc) && p < MAXPROC
    ensures loc[p] != InFree && to != InFree ==> Holds(k.free, loc[p := to], InFree)
    ensures loc[p] != InReady && to != InReady ==> Holds(k.ready, loc[p := to], InReady)
    ensures (loc[p].InQueue? ==> loc[p].key == key0) && (to.InQueue? ==> to.key == key0) ==>
              forall key :: key in k.blocked && key != key0 ==> Holds(k.blocked[key], loc[p := to], InQueue(key))
  {
    if loc[p] != InFree && to != InFree { HoldsAside(k.free, loc, InFree, p, to); }
    if loc[p] != InReady && to != InReady { HoldsAside(k.ready, loc, InReady, p, to); }
    if (loc[p].InQueue? ==> loc[p].key == key0) && (to.InQueue? ==> to.key == key0) {
      forall key | key in k.blocked && key != key0 ensures Holds(k.blocked[key], loc[p := to], InQueue(key)) {
        HoldsAside(k.blocked[key], loc, InQueue(key), p, to);
      }
    }
  }

  // ---------------------------------------------------------------- each step

  lemma DispatchKeeps(k: K, loc: seq<Place>, cpu: nat) returns (loc': seq<Place>)
    requires InvAt(k, loc) && cpu < NCPU && k.running[cpu].None?
    ensures InvAt(Dispatch(k, cpu), loc')
  {
    loc' := loc;
    if k.ready != [] {
      var p := k.ready[0];
      HoldsPop(k.ready, loc, InReady, OnCpu(cpu));
      OthersAside(k, loc, p, OnCpu(cpu), Dev(0));
      OthersAside(k, loc, p, OnCpu(cpu), Dev(1));
      loc' := loc[p := OnCpu(cpu)];
    }
  }

  lemma PltKeeps(k: K, loc: seq<Place>, cpu: nat, st: PState) returns (loc': seq<Place>)
    requires InvAt(k, loc) && cpu < NCPU && k.running[cpu].Some?
    ensures InvAt(Plt(k, cpu, st), loc')
  {
    loc' := PltPlaced(k, loc, cpu, st);
    hide Placed;
  }

  lemma PltPlaced(k: K, loc: seq<Place>, cpu: nat, st: PState) returns (loc': seq<Place>)
    requires InvAt(k, loc) && cpu < NCPU && k.running[cpu].Some?
    ensures k.running[cpu].value < MAXPROC && Shape(Plt(k, cpu, st)) && Placed(Plt(k, cpu, st), loc')
  {
    hide QueuesOk, TreeOk, PidsOk;
    var p := k.running[cpu].value;
    HoldsPush(k.ready, loc, InReady, p);
    OthersAside(k, loc, p, InReady, Dev(0));
    OthersAside(k, loc, p, InReady, Dev(1));
    loc' := loc[p := InReady];
  }

  lemma AddKeeps(k: K, loc: seq<Place>, key: Key, n: int)
    requires InvAt(k, loc)
    ensures InvAt(Add(k, key, n), loc)
  {
  }

  lemma SaveKeeps(k: K, loc: seq<Place>, p: nat, st: PState)
    requires InvAt(k, loc) && p < MAXPROC
    ensures InvAt(k.(pcb := k.pcb[p := k.pcb[p].(ps := st)]), loc)
  {
  }

  lemma WakeKeeps(k: K, loc: seq<Place>, key: Key) returns (loc': seq<Place>)
    requires InvAt(k, loc)
    ensures InvAt(Wake(k, key), loc')
  {
    loc' := loc;
    if key in k.blocked {
      var q := k.blocked[key];
      assert Holds(q, loc, InQueue(key));
      HoldsPop(q, loc, InQueue(key), InReady);
      HoldsPush(k.ready, loc, InReady, q[0]);
      OthersAside(k, loc, q[0], InReady, key);
      loc' := loc[q[0] := InReady];
      hide Placed, TreeOk, PidsOk;
      WokenTree(k, key);
      WokenQueues(k, key);
      WokenPlaced(k, loc, key, loc');
    }
  }

  /** Waking changes neither tree nor pids ... */
  lemma WokenTree(k: K, key: Key)
    requires Shape(k) && TreeOk(k) && PidsOk(k) && key in k.blocked && k.blocked[key] != []
    ensures Shape(Wake(k, key)) && TreeOk(Wake(k, key)) && PidsOk(Wake(k, key))
  {
    hide Deq;
    var k' := Wake(k, key);
    assert k'.children == k.children && k'.pcb == k.pcb && k'.free == k.free && k'.nextPid == k.nextPid;
  }

  /** ... and leaves only queues with waiters. */
  lemma WokenQueues(k: K, key: Key)
    requires Shape(k) && QueuesOk(k) && key in k.blocked && k.blocked[key] != []
    ensures Shape(Wake(k, key)) && QueuesOk(Wake(k, key))
  {
    var q := k.blocked[key];
    assert forall p :: p in q[1..] ==> p in q;
  }

  lemma WokenPlaced(k: K, loc: seq<Place>, key: Key, loc': seq<Place>)
    requires InvAt(k, loc) && key in k.blocked && |k.blocked[key]| > 0
    requires k.blocked[key][0] < MAXPROC && loc' == loc[k.blocked[key][0] := InReady]
    requires Holds(k.free, loc', InFree) && Holds(k.ready + [k.blocked[key][0]], loc', InReady)
    requires Holds(k.blocked[key][1..], loc', InQueue(key)) && loc[k.blocked[key][0]] == InQueue(key)
    requires forall other :: other in k.blocked && other != key ==> Holds(k.blocked[other], loc', InQueue(other))
    ensures Shape(Wake(k, key)) && Placed(Wake(k, key), loc')
  {
    hide TreeOk, PidsOk;
    var q := k.blocked[key];
    assert |q| == 1 ==> q[1..] == [];
  }

  lemma InsertKeepsBlocked(k: K, loc: seq<Place>, key: Key, p: nat) returns (loc': seq<Place>)
    requires InvAt(k, loc) && p < MAXPROC && loc[p].OnCpu?
    ensures loc' == loc[p := InQueue(key)]
    ensures forall key' :: key' in Enq(k.blocked, key, p) ==> Holds(Enq(k.blocked, key, p)[key'], loc', InQueue(key'))
    ensures Holds(k.free, loc', InFree) && Holds(k.ready, loc', InReady)
  {
    loc' := loc[p := InQueue(key)];
    OthersAside(k, loc, p, InQueue(key), key);
    if key in k.blocked {
      HoldsPush(k.blocked[key], loc, InQueue(key), p);
    } else {
      assert Holds([], loc, InQueue(key));
      HoldsPush([], loc, InQueue(key), p);
    }
  }

  lemma BlockKeepsPlaces(k: K, loc: seq<Place>, cpu: nat, key: Key, st: PState) returns (loc': seq<Place>)
    requires InvAt(k, loc) && cpu < NCPU && k.running[cpu].Some?
    requires !InsertFails(k.blocked, key)
    ensures loc' == loc[k.running[cpu].value := InQueue(key)]
    ensures Shape(Block(k, cpu, key, st)) && Placed(Block(k, cpu, key, st), loc')
  {
    var p := k.running[cpu].value;
    loc' := InsertKeepsBlocked(k, loc, key, p);
  }

  lemma BlockKeepsQueues(k: K, loc: seq<Place>, cpu: nat, key: Key, st: PState)
    requires InvAt(k, loc) && cpu < NCPU && k.running[cpu].Some?
    requires !InsertFails(k.blocked, key)
    ensures Shape(Block(k, cpu, key, st)) && QueuesOk(Block(k, cpu, key, st))
  {
    var p, k' := k.running[cpu].value, Block(k, cpu, key, st);
    forall key' | key' in k'.blocked
      ensures k'.blocked[key'] != []
      ensures forall x :: x in k'.blocked[key'] ==> x < MAXPROC && k'.pcb[x].semAdd == Some(key')
    {
      if key' in k.blocked {
        assert Holds(k.blocked[key'], loc, InQueue(key'));
      }
    }
  }

  lemma BlockKeeps(k: K, loc: seq<Place>, cpu: nat, key: Key, st: PState) returns (loc': seq<Place>)
    requires InvAt(k, loc) && cpu < NCPU && k.running[cpu].Some?
    requires !InsertFails(k.blocked, key)
    ensures InvAt(Block(k, cpu, key, st), loc')
  {
    loc' := BlockKeepsPlaces(k, loc, cpu, key, st);
    BlockKeepsQueues(k, loc, cpu, key, st);
    BlockKeepsTree(k, loc, cpu, key, st);
  }

  lemma BlockKeepsTree(k: K, loc: seq<Place>, cpu: nat, key: Key, st: PState)
    requires InvAt(k, loc) && cpu < NCPU && k.running[cpu].Some?
    requires !InsertFails(k.blocked, key)
    ensures Shape(Block(k, cpu, key, st)) && TreeOk(Block(k, cpu, key, st)) && PidsOk(Block(k, cpu, key, st))
  {
    hide QueuesOk, Enq;
  }

  lemma CreateKeeps(k: K, loc: seq<Place>, cpu: nat, st: PState) returns (loc': seq<Place>)
    requires InvAt(k, loc) && cpu < NCPU && Bounded(k)
    ensures InvAt(Create(k, cpu, st), loc')
  {
    loc' := loc;
    if k.free != [] {
      var p := k.free[0];
      HoldsPop(k.free, loc, InFree, InReady);
      HoldsPush(k.ready, loc, InReady, p);
      OthersAside(k, loc, p, InReady, Dev(0));
      OthersAside(k, loc, p, InReady, Dev(1));
      loc' := loc[p := InReady];
      var k' := Create(k, cpu, st);
      assert Placed(k', loc');
      CreateKeepsTree(k, loc, cpu, st);
      CreateKeepsPids(k, loc, cpu, st);
    }
  }

  lemma SiblingsGrow(cs: seq<nat>, pcb: seq<Pcb>, u: nat, p: nat, child: Pcb)
    requires Siblings(cs, pcb, u) && p < |pcb| && p !in cs && child.parent == Some(u)
    ensures Siblings([p] + cs, pcb[p := child], u)
  {
    forall i, j | 0 <= i < |cs| + 1 && 0 <= j < |cs| + 1 && ([p] + cs)[i] == ([p] + cs)[j] ensures i == j {
      if i > 0 { assert cs[i - 1] in cs; }
      if j > 0 { assert cs[j - 1] in cs; }
    }
  }

  lemma CreateKeepsTree(k: K, loc: seq<Place>, cpu: nat, st: PState)
    requires InvAt(k, loc) && cpu < NCPU && Bounded(k) && k.free != []
    ensures Shape(Create(k, cpu, st)) && TreeOk(Create(k, cpu, st))
  {
    RunningLive(k, loc, cpu);
    hide QueuesOk, Placed, Bounded;
    var p, k' := k.free[0], Create(k, cpu, st);
    assert p in k.free;
    assert forall c :: 0 <= c < MAXPROC && k.pcb[c].parent.Some? ==> c != p && k.pcb[c].parent.value != p;
    assert Siblings(k.children[p], k.pcb, p);
    HasMember(k.children[p]);
    forall q: nat | q < MAXPROC ensures Siblings(k'.children[q], k'.pcb, q) {
      assert Siblings(k.children[q], k.pcb, q) && p !in k.children[q];
      SiblingsElsewhere(k.children[q], k.pcb, q, p, k'.pcb[p]);
      if k.running[cpu] == Some(q) {
        SiblingsGrow(k.children[q], k.pcb, q, p, k'.pcb[p]);
      }
    }
    CreateListsAll(k, cpu, st, p);
  }

  lemma SiblingsElsewhere(cs: seq<nat>, pcb: seq<Pcb>, u: nat, p: nat, child: Pcb)
    requires Siblings(cs, pcb, u) && p < |pcb| && p !in cs
    ensures Siblings(cs, pcb[p := child], u)
  {
  }

  /** After a creation every process with a parent is in its parent's list. */
  lemma CreateListsAll(k: K, cpu: nat, st: PState, p: nat)
    requires Shape(k) && TreeOk(k) && Bounded(k) && cpu < NCPU && k.free != [] && p == k.free[0] && p < MAXPROC
    requires k.running[cpu].Some? ==> k.running[cpu].value != p
    requires forall c :: 0 <= c < MAXPROC && k.pcb[c].parent.Some? ==> c != p && k.pcb[c].parent.value != p
    ensures var k' := Create(k, cpu, st);
      forall c :: 0 <= c < MAXPROC && k'.pcb[c].parent.Some? ==>
        k'.pcb[c].parent.value < MAXPROC && c in k'.children[k'.pcb[c].parent.value]
  {
    hide Siblings;
  }

  lemma CreateKeepsPids(k: K, loc: seq<Place>, cpu: nat, st: PState)
    requires InvAt(k, loc) && cpu < NCPU && Bounded(k) && k.free != []
    ensures Shape(Create(k, cpu, st)) && PidsOk(Create(k, cpu, st))
  {
    RunningLive(k, loc, cpu);
    HoldsPop(k.free, loc, InFree, InReady);
    hide QueuesOk, Placed, TreeOk;
    var p, k' := k.free[0], Create(k, cpu, st);
    assert p in k.free;
    assert forall x :: x in k.free ==> x == p || x in k.free[1..];
    assert forall x :: x in k'.free ==> x in k.free;
  }

  lemma RunningLive(k: K, loc: seq<Place>, cpu: nat)
    requires InvAt(k, loc) && cpu < NCPU
    ensures k.running[cpu].Some? ==> k.running[cpu].value < MAXPROC && k.running[cpu].value !in k.free
  {
  }

  lemma TickKeeps(k: K, loc: seq<Place>) returns (loc': seq<Place>)
    requires InvAt(k, loc)
    ensures InvAt(Tick(k), loc')
  {
    var key := Dev(PSEUDOCLOCK);
    loc' := seq(|loc|, p requires 0 <= p < |loc| => if loc[p] == InQueue(key) then InReady else loc[p]);
    if key in k.blocked {
      var q, k' := k.blocked[key], Tick(k);
      assert Holds(q, loc, InQueue(key));
      assert Holds(k.ready + q, loc', InReady) by {
        var r := k.ready + q;
        forall i, j | 0 <= i < |r| && 0 <= j < |r| && r[i] == r[j] ensures i == j {
          if i < |k.ready| { assert k.ready[i] in k.ready; } else { assert q[i - |k.ready|] in q; }
          if j < |k.ready| { assert k.ready[j] in k.ready; } else { assert q[j - |k.ready|] in q; }
        }
      }
      forall key' | key' in k'.blocked ensures Holds(k'.blocked[key'], loc', InQueue(key')) {
        assert Holds(k.blocked[key'], loc, InQueue(key'));
      }
      assert Holds(k'.free, loc', InFree);
      assert Placed(k', loc');
    } else {
      assert loc' == loc;
    }
  }

  lemma SignalKeeps(k: K, loc: seq<Place>, key: Key, status: nat) returns (loc': seq<Place>)
    requires InvAt(k, loc) && Bounded(k)
    ensures InvAt(Signal(k, key, status), loc')
  {
    hide Placed, TreeOk, PidsOk;
    AddKeeps(k, loc, key, 1);
    var k1 := Add(k, key, 1);
    loc' := WakeKeeps(k1, loc, key);
    if key in k.blocked {
      var p := k.blocked[key][0];
      assert p in k.blocked[key];
      var k2 := Wake(k1, key);
      SaveKeeps(k2, loc', p, k2.pcb[p].ps.(a0 := status));
    }
  }

  // ---------------------------------------------------------------- descriptors never run out

  /** The keys that the first n PCBs wait on. */
  ghost function KeysOf(loc: seq<Place>): set<Key> {
    if loc == [] then {}
    else
      var rest := KeysOf(loc[..|loc| - 1]);
      if loc[|loc| - 1].InQueue? then rest + {loc[|loc| - 1].key} else rest
  }

  ghost function Waiters(loc: seq<Place>): nat {
    if loc == [] then 0 else Waiters(loc[..|loc| - 1]) + if loc[|loc| - 1].InQueue? then 1 else 0
  }

  lemma {:induction false} KeysBound(loc: seq<Place>)
    ensures |KeysOf(loc)| <= Waiters(loc) <= |loc|
    ensures forall p :: 0 <= p < |loc| && loc[p].InQueue? ==> loc[p].key in KeysOf(loc)
    ensures (exists p :: 0 <= p < |loc| && !loc[p].InQueue?) ==> Waiters(loc) < |loc|
  {
    if loc != [] {
      var init := loc[..|loc| - 1];
      KeysBound(init);
      forall p | 0 <= p < |loc| && loc[p].InQueue? ensures loc[p].key in KeysOf(loc) {
        if p < |init| { assert init[p].key in KeysOf(init); }
      }
      if p :| 0 <= p < |loc| && !loc[p].InQueue? {
        if p < |init| { assert !init[p].InQueue?; }
      }
    }
  }

  lemma SubsetSize<T>(a: set<T>, b: set<T>)
    requires a <= b
    ensures |a| <= |b|
  {
    assert b == a + (b - a);
  }

  /** Active semaphores have disjoint, non-empty queues, so there are at most as many as waiters;
    * while some process is running (or ready) one descriptor at least is free. */
  lemma DescriptorsSuffice(k: K, p: nat)
    requires Inv(k) && p < MAXPROC && !(exists key :: key in k.blocked && p in k.blocked[key])
    ensures |k.blocked| < MAXPROC
    ensures forall key :: !InsertFails(k.blocked, key)
  {
    var loc: seq<Place> :| InvAt(k, loc);
    KeysBound(loc);
    AtIsLoc(k, loc, p, loc[p]);
    assert !loc[p].InQueue?;
    forall key | key in k.blocked ensures key in KeysOf(loc) {
      var q := k.blocked[key];
      assert Holds(q, loc, InQueue(key)) && q[0] in q;
      assert loc[q[0]].key in KeysOf(loc);
    }
    SubsetSize(k.blocked.Keys, KeysOf(loc));
  }

  /** insertBlocked, called for a running process, always finds a descriptor: the calls that ignore
    * its result always block the caller, and CLOCKWAIT never panics. */
  lemma InsertBlockedNeverFails(k: K, cpu: nat, key: Key)
    requires Inv(k) && cpu < NCPU && k.running[cpu].Some?
    ensures !InsertFails(k.blocked, key)
  {
    var loc: seq<Place> :| InvAt(k, loc);
    var p := k.running[cpu].value;
    forall key' | key' in k.blocked ensures p !in k.blocked[key'] {
      assert Holds(k.blocked[key'], loc, InQueue(key'));
    }
    DescriptorsSuffice(k, p);
  }

  // ---------------------------------------------------------------- each place excludes the others

  ghost predicate At(k: K, p: nat, place: Place) {
    match place
    case InFree => p in k.free
    case InReady => p in k.ready
    case OnCpu(c) => c < |k.running| && k.running[c] == Some(p)
    case InQueue(key) => key in k.blocked && p in k.blocked[key]
  }

  lemma AtIsLoc(k: K, loc: seq<Place>, p: nat, place: Place)
    requires InvAt(k, loc) && p < MAXPROC
    ensures At(k, p, place) <==> loc[p] == place
  {
    if place.InQueue? && place.key in k.blocked {
      assert Holds(k.blocked[place.key], loc, place);
    }
  }

  /** Every PCB is in exactly one place, and in it once; process_count is the number in use. */
  lemma EveryPcbInOnePlace(k: K, p: nat)
    requires Inv(k) && p < MAXPROC
    ensures exists place :: At(k, p, place) && forall other :: At(k, p, other) ==> other == place
    ensures ListX.NoDup(k.free) && ListX.NoDup(k.ready)
    ensures forall key :: key in k.blocked ==> ListX.NoDup(k.blocked[key])
    ensures k.count == MAXPROC - |k.free|
  {
    var loc: seq<Place> :| InvAt(k, loc);
    AtIsLoc(k, loc, p, loc[p]);
    forall other | At(k, p, other) ensures other == loc[p] {
      AtIsLoc(k, loc, p, other);
    }
    forall key | key in k.blocked ensures ListX.NoDup(k.blocked[key]) {
      assert Holds(k.blocked[key], loc, InQueue(key));
    }
  }
}
