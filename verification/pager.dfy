/** Demand paging (phase3/vmSupport.c, the refill handler of phase2/exceptions.c, the initial tables of
  * phase3/initProc.c) as a state machine on one CPU.  A step is what runs between two points where
  * another process may run: the window between the clearing of the victim's valid bit and the first
  * critical section, and the waits for the flash device.  One process at a time is in the pager, which
  * PagerSystem derives from the mutex; processes touch pages of the layout only and flash transfers
  * succeed. */
module Pager {
  const POOLSIZE: nat := 16
  const MAXPAGES: nat := 32
  const UPROCMAX: nat := 8
  const PAGEWORDS: nat := 1024

  type Page = p: seq<int> | |p| == PAGEWORDS witness seq(PAGEWORDS, i => 0)

  /** A page of a process: its address space identifier and its index in the private page table. */
  datatype Key = Key(asid: nat, page: nat)

  datatype Pte = Invalid | Valid(frame: nat)
  datatype Slot = Free | Taken(key: Key)
  datatype TlbEntry = Empty | Entry(key: Key, pte: Pte)

  /** What the process holding swap_pool_sem is about to do, for the page it faulted on. */
  datatype Phase =
    | Idle                                // no process holds the mutex
    | Chosen(fault: Key, victim: nat)     // getSwapFrame returned victim
    | Unmapped(fault: Key, victim: nat)   // victim's valid bit cleared, the TLB not yet updated
    | Writing(fault: Key, victim: nat)    // waiting for the write of the frame
    | Evicted(fault: Key, victim: nat)    // the block is written
    | Reading(fault: Key, victim: nat)    // waiting for the read into the frame
    | Arrived(fault: Key, victim: nat)    // the frame is read

  datatype Vm = Vm(
    ptes: map<Key, Pte>,      // sup_privatePgTbl of every process
    flash: map<Key, Page>,    // block key.page of flash device key.asid - 1
    frames: seq<Page>,        // the swap pool in memory
    swap: seq<Slot>,          // swap_pool_table; sw_pte is the entry of the key
    hand: nat,                // fifo_hand
    tlb: seq<TlbEntry>,
    phase: Phase,
    faulted: set<Key>,        // pages whose owner waits in the pager
    history: seq<Key>)        // pages read in so far

  datatype Event =
    | Refill(key: Key, slot: nat)                        // TLB miss; slot is the one TLBWR picks
    | Fault(key: Key, slot: nat)                         // TLB hit on an invalid entry
    | Store(key: Key, slot: nat, offset: nat, word: int) // TLB hit on a valid entry
    | Load(key: Key, slot: nat, offset: nat)
    | Claim(key: Key)                                    // getMutex granted, getSwapFrame
    | Unmap
    | StartWrite
    | Transfer(data: Page)                               // a transfer in progress has copied anything
    | FinishWrite
    | StartRead
    | FinishRead
    | Map

  predicate InLayout(k: Key) {
    1 <= k.asid <= UPROCMAX && k.page < MAXPAGES
  }

  // ---------------------------------------------------------------- steps

  /** getSwapFrame: the first free frame at i or above. */
  function FirstFree(swap: seq<Slot>, i: nat): (r: nat)
    requires i <= |swap|
    ensures i <= r <= |swap|
    ensures forall j :: i <= j < r ==> swap[j].Taken?
    ensures r < |swap| ==> swap[r].Free?
    decreases |swap| - i
  {
    if i == |swap| || swap[i].Free? then i else FirstFree(swap, i + 1)
  }

  function SwapFrame(swap: seq<Slot>, hand: nat): nat {
    var free := FirstFree(swap, 0);
    if free < |swap| then free else hand
  }

  function NextHand(swap: seq<Slot>, hand: nat): nat {
    if FirstFree(swap, 0) < |swap| then hand else (hand + 1) % POOLSIZE
  }

  /** updateTLB: the entry of the page, if the TLB has one, becomes its page table entry. */
  function UpdateTlb(tlb: seq<TlbEntry>, k: Key, pte: Pte): seq<TlbEntry> {
    seq(|tlb|, i requires 0 <= i < |tlb| => if tlb[i].Entry? && tlb[i].key == k then Entry(k, pte) else tlb[i])
  }

  predicate Running(s: Vm, asid: nat) {
    forall k :: k in s.faulted ==> k.asid != asid
  }

  predicate Hit(s: Vm, k: Key, slot: nat) {
    slot < |s.tlb| && s.tlb[slot].Entry? && s.tlb[slot].key == k
  }

  predicate Enabled(s: Vm, e: Event) {
    match e
    case Refill(k, i) =>
      Running(s, k.asid) && k in s.ptes && i < |s.tlb| && forall j :: 0 <= j < |s.tlb| ==> !Hit(s, k, j)
    case Fault(k, i) => Running(s, k.asid) && Hit(s, k, i) && s.tlb[i].pte.Invalid?
    case Store(k, i, o, w) => Running(s, k.asid) && Hit(s, k, i) && s.tlb[i].pte.Valid? && o < PAGEWORDS
    case Load(k, i, o) => Running(s, k.asid) && Hit(s, k, i) && s.tlb[i].pte.Valid? && o < PAGEWORDS
    case Claim(k) => s.phase.Idle? && k in s.faulted
    case Unmap => s.phase.Chosen? && s.phase.victim < |s.swap| && s.swap[s.phase.victim].Taken?
    case StartWrite => s.phase.Unmapped?
    case Transfer(d) => s.phase.Writing? || s.phase.Reading?
    case FinishWrite => s.phase.Writing?
    case StartRead =>
      || s.phase.Evicted?
      || (s.phase.Chosen? && s.phase.victim < |s.swap| && s.swap[s.phase.victim].Free?)
    case FinishRead => s.phase.Reading?
    case Map => s.phase.Arrived?
  }

  /** What the tables must satisfy for a step to be defined. */
  ghost predicate Sized(s: Vm) {
    && |s.frames| == |s.swap| == POOLSIZE && s.hand < POOLSIZE
    && (forall k :: k in s.ptes <==> InLayout(k))
    && (forall k :: k in s.flash <==> InLayout(k))
    && (forall k :: k in s.faulted ==> k in s.ptes)
    && (forall k :: k in s.ptes && s.ptes[k].Valid? ==> s.ptes[k].frame < POOLSIZE)
    && (!s.phase.Idle? ==> s.phase.victim < POOLSIZE && s.phase.fault in s.faulted)
    && (forall i :: 0 <= i < POOLSIZE && s.swap[i].Taken? ==> s.swap[i].key in s.ptes)
    && (forall i :: 0 <= i < |s.tlb| && s.tlb[i].Entry? ==>
         s.tlb[i].key in s.ptes && (s.tlb[i].pte.Valid? ==> s.tlb[i].pte.frame < POOLSIZE))
    && (s.phase.Unmapped? || s.phase.Writing? ==> s.swap[s.phase.victim].Taken?)
  }

  function Step(s: Vm, e: Event): Vm
    requires Sized(s) && Enabled(s, e)
  {
    match e
    case Refill(k, i) => s.(tlb := s.tlb[i := Entry(k, s.ptes[k])])
    case Fault(k, _) => s.(faulted := s.faulted + {k})
    case Store(k, i, o, w) =>
      var f := s.tlb[i].pte.frame;
      s.(frames := s.frames[f := s.frames[f][o := w]])
    case Load(_, _, _) => s
    case Claim(k) =>
      s.(hand := NextHand(s.swap, s.hand), phase := Chosen(k, SwapFrame(s.swap, s.hand)))
    case Unmap =>
      var k := s.swap[s.phase.victim].key;
      s.(ptes := s.ptes[k := Invalid], phase := Unmapped(s.phase.fault, s.phase.victim))
    case StartWrite =>
      var k := s.swap[s.phase.victim].key;
      s.(tlb := UpdateTlb(s.tlb, k, s.ptes[k]), phase := Writing(s.phase.fault, s.phase.victim))
    case Transfer(d) =>
      if s.phase.Writing? then s.(flash := s.flash[s.swap[s.phase.victim].key := d])
      else s.(frames := s.frames[s.phase.victim := d])
    case FinishWrite =>
      s.(flash := s.flash[s.swap[s.phase.victim].key := s.frames[s.phase.victim]],
         phase := Evicted(s.phase.fault, s.phase.victim))
    case StartRead => s.(phase := Reading(s.phase.fault, s.phase.victim))
    case FinishRead =>
      s.(frames := s.frames[s.phase.victim := s.flash[s.phase.fault]],
         phase := Arrived(s.phase.fault, s.phase.victim))
    case Map =>
      var (f, v) := (s.phase.fault, s.phase.victim);
      s.(swap := s.swap[v := Taken(f)], ptes := s.ptes[f := Valid(v)],
         tlb := UpdateTlb(s.tlb, f, Valid(v)),
         faulted := s.faulted - {f}, phase := Idle, history := s.history + [f])
  }

  /** phase3/initProc.c, test: every entry invalid, every frame free. */
  predicate Initial(s: Vm) {
    && s.ptes == (map a: nat, p: nat | 1 <= a <= UPROCMAX && p < MAXPAGES :: Key(a, p) := Invalid)
    && s.flash.Keys == s.ptes.Keys
    && |s.frames| == POOLSIZE
    && s.swap == seq(POOLSIZE, i => Free)
    && s.hand == 0
    && (forall i :: 0 <= i < |s.tlb| ==> s.tlb[i] == Empty)
    && s.phase == Idle && s.faulted == {} && s.history == []
  }

  // ---------------------------------------------------------------- invariant

  /** The victim's entry is invalid although its frame is still in the swap pool table. */
  predicate Leaving(s: Vm, frame: nat) {
    !s.phase.Idle? && !s.phase.Chosen? && s.phase.victim == frame
  }

  /** The swap pool table and the page tables are inverse, but for a frame on its way out. */
  ghost predicate TablesAgree(s: Vm)
    requires Sized(s)
  {
    && (forall k :: k in s.ptes && s.ptes[k].Valid? ==>
         s.swap[s.ptes[k].frame] == Taken(k) && !Leaving(s, s.ptes[k].frame))
    && (forall i :: 0 <= i < POOLSIZE && s.swap[i].Taken? ==>
         s.ptes[s.swap[i].key] == if Leaving(s, i) then Invalid else Valid(i))
  }

  /** At most one entry a page, equal to the page table entry, but for a victim in the window before
    * the TLB is updated. */
  ghost predicate TlbAgrees(s: Vm)
    requires Sized(s)
  {
    && (forall i, j :: 0 <= i < j < |s.tlb| && s.tlb[i].Entry? && s.tlb[j].Entry? ==> s.tlb[i].key != s.tlb[j].key)
    && (forall i :: 0 <= i < |s.tlb| && s.tlb[i].Entry? ==>
         || s.tlb[i].pte == s.ptes[s.tlb[i].key]
         || (s.phase.Unmapped? && s.swap[s.phase.victim] == Taken(s.tlb[i].key)
             && s.tlb[i].pte == Valid(s.phase.victim)))
  }

  /** The n-th page read in went to frame n mod 16, and the last 16 of them are the pages in memory. */
  ghost predicate HistoryAgrees(s: Vm)
    requires Sized(s)
  {
    var n := |s.history|;
    && (forall i :: 0 <= i < POOLSIZE && n <= i ==> s.swap[i] == Free)
    && (forall i :: 0 <= i < n <= i + POOLSIZE ==> s.swap[FrameOf(i)] == Taken(s.history[i]))
    && (s.phase.Idle? ==> s.hand == HandAt(n))
    && (!s.phase.Idle? ==> s.phase.victim == FrameOf(n) && s.hand == HandAt(if n < POOLSIZE then n else n + 1))
  }

  function FrameOf(n: nat): (frame: nat)
    ensures frame < POOLSIZE
  {
    n % POOLSIZE
  }

  function HandAt(n: nat): nat {
    if n < POOLSIZE then 0 else FrameOf(n)
  }

  ghost predicate Inv(s: Vm) {
    && Sized(s)
    && TablesAgree(s)
    && TlbAgrees(s)
    && HistoryAgrees(s)
    && (forall k :: k in s.faulted ==> s.ptes[k].Invalid?)
    && (s.phase.Evicted? ==> s.swap[s.phase.victim].Taken?)
    && (s.phase.Arrived? ==> s.frames[s.phase.victim] == s.flash[s.phase.fault])
  }

  // ---------------------------------------------------------------- flat memory

  datatype Place = InFrame(frame: nat) | OnFlash

  /** Where the contents of a page are. */
  function PlaceOf(s: Vm, k: Key): Place
    requires k in s.ptes
  {
    if s.ptes[k].Valid? then InFrame(s.ptes[k].frame)
    else if (s.phase.Unmapped? || s.phase.Writing?) && s.phase.victim < |s.swap| && s.swap[s.phase.victim] == Taken(k)
      then InFrame(s.phase.victim)
    else OnFlash
  }

  function Contents(s: Vm, k: Key): Page
    requires Inv(s) && k in s.ptes
  {
    match PlaceOf(s, k)
    case InFrame(f) => s.frames[f]
    case OnFlash => s.flash[k]
  }

  /** Every page of every process, wherever it is. */
  function Flat(s: Vm): (m: map<Key, Page>)
    requires Inv(s)
    ensures m.Keys == s.ptes.Keys
  {
    map k | k in s.ptes :: Contents(s, k)
  }

  /** The same event on flat memory: only a store changes it. */
  function FlatStep(m: map<Key, Page>, e: Event): map<Key, Page> {
    if e.Store? && e.key in m && e.offset < PAGEWORDS then m[e.key := m[e.key][e.offset := e.word]] else m
  }

  // ---------------------------------------------------------------- every step keeps the invariant

  /** Of any 16 consecutive page-ins, one goes to each frame. */
  lemma FrameHit(n: nat, frame: nat) returns (i: nat)
    requires frame < POOLSIZE <= n
    ensures n - POOLSIZE <= i < n && FrameOf(i) == frame
  {
    i := n - 1 - (n - 1 - frame) % POOLSIZE;
  }

  lemma FramesDiffer(i: nat, n: nat)
    requires i < n < i + POOLSIZE
    ensures FrameOf(i) != FrameOf(n)
  {
  }

  lemma FrameAgain(n: nat)
    ensures FrameOf(n + 1) == (FrameOf(n) + 1) % POOLSIZE
    ensures n < POOLSIZE ==> FrameOf(n) == n
    ensures n >= POOLSIZE ==> FrameOf(n - POOLSIZE) == FrameOf(n)
  {
    NextRemainder(n);
    if n >= POOLSIZE {
      SameRemainder(n - 16);
    }
  }

  lemma NextRemainder(n: nat)
    ensures (n + 1) % 16 == if n % 16 == 15 then 0 else n % 16 + 1
  {
  }

  lemma SameRemainder(n: nat)
    ensures (n + 16) % 16 == n % 16
  {
  }

  lemma RefillKeeps(s: Vm, k: Key, i: nat)
    requires Inv(s) && Enabled(s, Refill(k, i))
    ensures Inv(Step(s, Refill(k, i)))
  {
    hide FrameOf;
    var s' := Step(s, Refill(k, i));
    forall j | 0 <= j < |s.tlb| && s.tlb[j].Entry? ensures s.tlb[j].key != k {
      assert !Hit(s, k, j);
    }
  }

  lemma FaultKeeps(s: Vm, k: Key, i: nat)
    requires Inv(s) && Enabled(s, Fault(k, i))
    ensures Inv(Step(s, Fault(k, i)))
  {
    hide FrameOf;
  }

  lemma StoreKeeps(s: Vm, k: Key, i: nat, o: nat, w: int)
    requires Inv(s) && Enabled(s, Store(k, i, o, w))
    ensures Inv(Step(s, Store(k, i, o, w)))
  {
    hide FrameOf;
  }

  lemma ClaimKeeps(s: Vm, k: Key)
    requires Inv(s) && Enabled(s, Claim(k))
    ensures Inv(Step(s, Claim(k)))
  {
    hide FrameOf, FirstFree;
    VictimIsOldest(s);
    FrameAgain(|s.history|);
  }

  /** getSwapFrame picks frame n mod 16 for the n-th page read in, and once all frames are taken the
    * page it evicts is the one read in longest ago. */
  lemma VictimIsOldest(s: Vm)
    requires Inv(s) && s.phase.Idle?
    ensures SwapFrame(s.swap, s.hand) == FrameOf(|s.history|)
    ensures NextHand(s.swap, s.hand) == HandAt(if |s.history| < POOLSIZE then |s.history| else |s.history| + 1)
    ensures |s.history| < POOLSIZE ==> s.swap[FrameOf(|s.history|)] == Free
    ensures |s.history| >= POOLSIZE ==>
      s.swap[FrameOf(|s.history|)] == Taken(s.history[|s.history| - POOLSIZE])
  {
    hide FrameOf, TablesAgree, TlbAgrees;
    var n := |s.history|;
    var free := FirstFree(s.swap, 0);
    FrameAgain(n);
    if n < POOLSIZE {
      assert s.swap[n] == Free;
      forall i | 0 <= i < n ensures s.swap[i].Taken? {
        FrameAgain(i);
        assert s.swap[FrameOf(i)] == Taken(s.history[i]);
      }
    } else {
      var oldest := n - POOLSIZE;
      assert s.swap[FrameOf(oldest)] == Taken(s.history[oldest]);
      forall frame: nat | frame < POOLSIZE ensures s.swap[frame].Taken? {
        var i := FrameHit(n, frame);
        assert s.swap[FrameOf(i)] == Taken(s.history[i]);
      }
    }
  }

  lemma UnmapKeeps(s: Vm)
    requires Inv(s) && Enabled(s, Unmap)
    ensures Inv(Step(s, Unmap))
  {
    hide FrameOf, FirstFree;
  }

  lemma StartWriteKeeps(s: Vm)
    requires Inv(s) && Enabled(s, StartWrite)
    ensures Inv(Step(s, StartWrite))
  {
    hide FrameOf, FirstFree;
  }

  lemma TransferKeeps(s: Vm, d: Page)
    requires Inv(s) && Enabled(s, Transfer(d))
    ensures Inv(Step(s, Transfer(d)))
  {
    hide FrameOf, FirstFree;
  }

  lemma FlashKeeps(s: Vm, e: Event)
    requires e.FinishWrite? || e.StartRead? || e.FinishRead?
    requires Inv(s) && Enabled(s, e)
    ensures Inv(Step(s, e))
  {
    hide FrameOf, FirstFree;
    match e
    case FinishWrite => FinishWriteKeeps(s);
    case StartRead =>
    case FinishRead => FinishReadKeeps(s);
  }

  lemma FinishWriteKeeps(s: Vm)
    requires Inv(s) && Enabled(s, FinishWrite)
    ensures Inv(Step(s, FinishWrite))
  {
    hide FrameOf, FirstFree;
  }

  lemma FinishReadKeeps(s: Vm)
    requires Inv(s) && Enabled(s, FinishRead)
    ensures Inv(Step(s, FinishRead))
  {
    hide FrameOf, FirstFree;
  }

  lemma MapKeeps(s: Vm)
    requires Inv(s) && Enabled(s, Map)
    ensures Inv(Step(s, Map))
  {
    hide HistoryAgrees, TablesAgree, TlbAgrees;
    MapKeepsSizes(s);
    MapKeepsTables(s);
    MapKeepsTlb(s);
    MapKeepsHistory(s);
  }

  lemma MapKeepsSizes(s: Vm)
    requires Inv(s) && Enabled(s, Map)
    ensures Sized(Step(s, Map))
  {
    hide FrameOf, HistoryAgrees, TlbAgrees, TablesAgree;
  }

  lemma MapKeepsTables(s: Vm)
    requires Inv(s) && Sized(s) && Enabled(s, Map)
    requires Sized(Step(s, Map))
    ensures TablesAgree(Step(s, Map))
  {
    hide Inv, Sized, UpdateTlb, TablesAgree;
    BeforeMap(s);
    MappedTables(s.swap, s.ptes, s.phase.fault, s.phase.victim);
    TablesBetweenUses(Step(s, Map));
  }

  lemma BeforeMap(s: Vm)
    requires Inv(s) && Enabled(s, Map)
    ensures s.phase.victim < |s.swap| && s.phase.fault in s.ptes && s.ptes[s.phase.fault].Invalid?
    ensures forall k :: k in s.ptes && s.ptes[k].Valid? ==>
      s.ptes[k].frame < |s.swap| && s.ptes[k].frame != s.phase.victim && s.swap[s.ptes[k].frame] == Taken(k)
    ensures forall i :: 0 <= i < |s.swap| && s.swap[i].Taken? ==> s.swap[i].key in s.ptes
    ensures forall i :: 0 <= i < |s.swap| && i != s.phase.victim && s.swap[i].Taken? ==>
      s.ptes[s.swap[i].key] == Valid(i)
  {
    hide HistoryAgrees, TlbAgrees, InLayout;
  }

  lemma TablesBetweenUses(s: Vm)
    requires Sized(s) && s.phase.Idle?
    requires forall k :: k in s.ptes && s.ptes[k].Valid? ==> s.swap[s.ptes[k].frame] == Taken(k)
    requires forall i :: 0 <= i < |s.swap| && s.swap[i].Taken? ==> s.ptes[s.swap[i].key] == Valid(i)
    ensures TablesAgree(s)
  {
    hide InLayout;
  }

  /** The victim's frame, which no valid entry names, gets the faulting page, whose entry is invalid. */
  lemma MappedTables(swap: seq<Slot>, ptes: map<Key, Pte>, f: Key, v: nat)
    requires v < |swap| && f in ptes && ptes[f].Invalid?
    requires forall i :: 0 <= i < |swap| && swap[i].Taken? ==> swap[i].key in ptes
    requires forall k :: k in ptes && ptes[k].Valid? ==>
      ptes[k].frame < |swap| && ptes[k].frame != v && swap[ptes[k].frame] == Taken(k)
    requires forall i :: 0 <= i < |swap| && i != v && swap[i].Taken? ==> ptes[swap[i].key] == Valid(i)
    ensures var (swap', ptes') := (swap[v := Taken(f)], ptes[f := Valid(v)]);
      && (forall k :: k in ptes' && ptes'[k].Valid? ==>
           ptes'[k].frame < |swap| && swap'[ptes'[k].frame] == Taken(k))
      && (forall i :: 0 <= i < |swap| && swap'[i].Taken? ==> swap'[i].key in ptes' && ptes'[swap'[i].key] == Valid(i))
  {
  }

  lemma MapKeepsTlb(s: Vm)
    requires Inv(s) && Enabled(s, Map)
    requires Sized(Step(s, Map))
    ensures TlbAgrees(Step(s, Map))
  {
    hide FrameOf, HistoryAgrees;
  }

  lemma MapKeepsHistory(s: Vm)
    requires Inv(s) && Enabled(s, Map)
    requires Sized(Step(s, Map))
    ensures HistoryAgrees(Step(s, Map))
  {
    hide FrameOf, TablesAgree, TlbAgrees, UpdateTlb;
    var (n, s') := (|s.history|, Step(s, Map));
    FrameAgain(n);
    FrameAgain(n + 1);
    forall i: nat | i <= n < i + POOLSIZE ensures s'.swap[FrameOf(i)] == Taken(s'.history[i]) {
      FrameAgain(i);
      if i < n {
        FramesDiffer(i, n);
        assert s.swap[FrameOf(i)] == Taken(s.history[i]);
      }
    }
  }

  lemma StepKeepsInv(s: Vm, e: Event)
    requires Inv(s) && Enabled(s, e)
    ensures Inv(Step(s, e))
  {
    hide Inv, Step, Enabled;
    match e
    case Refill(k, i) => RefillKeeps(s, k, i);
    case Fault(k, i) => FaultKeeps(s, k, i);
    case Store(k, i, o, w) => StoreKeeps(s, k, i, o, w);
    case Load(k, i, o) => LoadKeeps(s, k, i, o);
    case Claim(k) => ClaimKeeps(s, k);
    case Unmap => UnmapKeeps(s);
    case StartWrite => StartWriteKeeps(s);
    case Transfer(d) => TransferKeeps(s, d);
    case FinishWrite => FlashKeeps(s, e);
    case StartRead => FlashKeeps(s, e);
    case FinishRead => FlashKeeps(s, e);
    case Map => MapKeeps(s);
  }

  lemma LoadKeeps(s: Vm, k: Key, i: nat, o: nat)
    requires Inv(s) && Enabled(s, Load(k, i, o))
    ensures Inv(Step(s, Load(k, i, o)))
  {
  }

  lemma InitialInv(s: Vm)
    requires Initial(s)
    ensures Inv(s)
  {
  }

  // ---------------------------------------------------------------- paging is invisible

  /** A page somebody can reach through the TLB is in the frame the entry names. */
  lemma HitReachesContents(s: Vm, k: Key, i: nat)
    requires Inv(s) && Hit(s, k, i) && s.tlb[i].pte.Valid?
    ensures PlaceOf(s, k) == InFrame(s.tlb[i].pte.frame)
  {
    hide FrameOf;
  }

  /** Two pages are never in one frame, and a frame being read into holds none. */
  lemma PlacesDiffer(s: Vm, j: Key, k: Key)
    requires Inv(s) && j in s.ptes && k in s.ptes
    requires PlaceOf(s, j).InFrame? && PlaceOf(s, j) == PlaceOf(s, k)
    ensures j == k && !(s.phase.Reading? && PlaceOf(s, j).frame == s.phase.victim)
  {
    hide FrameOf;
  }

  /** What a process sees of a page is what it saw before, unless it stores to it. */
  lemma StepKeepsContents(s: Vm, e: Event, k: Key)
    requires Inv(s) && Enabled(s, e) && k in s.ptes && !e.Store?
    ensures Inv(Step(s, e)) && k in Step(s, e).ptes
    ensures Contents(Step(s, e), k) == Contents(s, k)
  {
    hide TablesAgree, TlbAgrees, HistoryAgrees, UpdateTlb, FirstFree;
    StepKeepsInv(s, e);
    match e
    case Unmap => UnmapKeepsContents(s, k);
    case Transfer(d) => TransferKeepsContents(s, d, k);
    case FinishRead => FinishReadKeepsContents(s, k);
    case Map => MapKeepsContents(s, k);
    case _ =>
  }

  lemma UnmapKeepsContents(s: Vm, k: Key)
    requires Inv(s) && Enabled(s, Unmap) && k in s.ptes && Inv(Step(s, Unmap))
    ensures k in Step(s, Unmap).ptes && Contents(Step(s, Unmap), k) == Contents(s, k)
  {
    hide TlbAgrees, HistoryAgrees;
  }

  lemma TransferKeepsContents(s: Vm, d: Page, k: Key)
    requires Inv(s) && Enabled(s, Transfer(d)) && k in s.ptes && Inv(Step(s, Transfer(d)))
    ensures k in Step(s, Transfer(d)).ptes && Contents(Step(s, Transfer(d)), k) == Contents(s, k)
  {
    hide TlbAgrees, HistoryAgrees;
  }

  lemma FinishReadKeepsContents(s: Vm, k: Key)
    requires Inv(s) && Enabled(s, FinishRead) && k in s.ptes && Inv(Step(s, FinishRead))
    ensures k in Step(s, FinishRead).ptes && Contents(Step(s, FinishRead), k) == Contents(s, k)
  {
    hide TlbAgrees, HistoryAgrees;
  }

  lemma MapKeepsContents(s: Vm, k: Key)
    requires Inv(s) && Enabled(s, Map) && k in s.ptes && Inv(Step(s, Map))
    ensures k in Step(s, Map).ptes && Contents(Step(s, Map), k) == Contents(s, k)
  {
    hide TlbAgrees, HistoryAgrees, UpdateTlb;
  }

  lemma StoreReachesContents(s: Vm, e: Event, k: Key)
    requires Inv(s) && Enabled(s, e) && k in s.ptes && e.Store?
    ensures Inv(Step(s, e)) && k in Step(s, e).ptes
    ensures Contents(Step(s, e), k) == if k == e.key then Contents(s, k)[e.offset := e.word] else Contents(s, k)
  {
    hide FrameOf, HistoryAgrees, TablesAgree, TlbAgrees;
    StepKeepsInv(s, e);
    HitReachesContents(s, e.key, e.slot);
    var s' := Step(s, e);
    assert PlaceOf(s', k) == PlaceOf(s, k);
    var frame := s.tlb[e.slot].pte.frame;
    assert s'.frames == s.frames[frame := s.frames[frame][e.offset := e.word]];
    if PlaceOf(s, k).InFrame? {
      assert Contents(s, k) == s.frames[PlaceOf(s, k).frame];
      if k != e.key {
        assert PlaceOf(s, k) != InFrame(frame) by {
          if PlaceOf(s, k) == InFrame(frame) {
            PlacesDiffer(s, k, e.key);
          }
        }
      }
    }
  }

  /** The paged memory refines flat memory, step by step. */
  lemma StepRefinesFlat(s: Vm, e: Event)
    requires Inv(s) && Enabled(s, e)
    ensures Inv(Step(s, e)) && Flat(Step(s, e)) == FlatStep(Flat(s), e)
  {
    hide TablesAgree, TlbAgrees, HistoryAgrees, FrameOf, Contents, Step;
    StepKeepsInv(s, e);
    var s' := Step(s, e);
    assert e.Store? ==> e.key in s.ptes;
    forall k | k in s.ptes
      ensures k in s'.ptes
      ensures Contents(s', k) ==
        if e.Store? && k == e.key then Contents(s, k)[e.offset := e.word] else Contents(s, k)
    {
      if e.Store? {
        StoreReachesContents(s, e, k);
      } else {
        StepKeepsContents(s, e, k);
      }
    }
  }

  // ---------------------------------------------------------------- runs

  ghost predicate Run(ss: seq<Vm>, es: seq<Event>) {
    && |ss| == |es| + 1 && Initial(ss[0])
    && forall i :: 0 <= i < |es| ==> Sized(ss[i]) && Enabled(ss[i], es[i]) && ss[i + 1] == Step(ss[i], es[i])
  }

  lemma {:induction false} RunInv(ss: seq<Vm>, es: seq<Event>, n: nat)
    requires Run(ss, es) && n < |ss|
    ensures Inv(ss[n])
  {
    if n == 0 {
      InitialInv(ss[0]);
    } else {
      hide Inv, Sized, Enabled, Step, Initial;
      var m := n - 1;
      RunInv(ss, es, m);
      StepKeepsInv(ss[m], es[m]);
      assert ss[m + 1] == Step(ss[m], es[m]);
    }
  }

  /** The word the last store to (k, offset) in es put there, or the one that was there before. */
  function LastStored(es: seq<Event>, k: Key, offset: nat, before: int): int {
    if es == [] then before
    else
      var e := es[|es| - 1];
      if e.Store? && e.key == k && e.offset == offset then e.word
      else LastStored(es[..|es| - 1], k, offset, before)
  }

  lemma StepKeepsWord(s: Vm, e: Event, s': Vm, k: Key, offset: nat)
    requires Inv(s) && Enabled(s, e) && s' == Step(s, e) && k in s.ptes && offset < PAGEWORDS
    ensures Inv(s') && k in s'.ptes
    ensures Contents(s', k)[offset] ==
      if e.Store? && e.key == k && e.offset == offset then e.word else Contents(s, k)[offset]
  {
    hide Inv, Step, Contents;
    if e.Store? {
      StoreReachesContents(s, e, k);
    } else {
      StepKeepsContents(s, e, k);
    }
  }

  lemma {:induction false} ContentsAreStored(ss: seq<Vm>, es: seq<Event>, n: nat, k: Key, offset: nat)
    requires Run(ss, es) && n < |ss| && InLayout(k) && offset < PAGEWORDS
    ensures Inv(ss[n]) && k in ss[n].ptes && Inv(ss[0]) && k in ss[0].flash
    ensures Contents(ss[n], k)[offset] == LastStored(es[..n], k, offset, ss[0].flash[k][offset])
  {
    hide Step, Enabled, Initial, TablesAgree, TlbAgrees, HistoryAgrees, Contents;
    RunInv(ss, es, 0);
    RunInv(ss, es, n);
    if n == 0 {
      InitialContents(ss[0], k);
    } else {
      var m := n - 1;
      ContentsAreStored(ss, es, m, k, offset);
      StepKeepsWord(ss[m], es[m], ss[m + 1], k, offset);
      assert es[..n][..m] == es[..m] && es[..n][m] == es[m];
    }
  }

  lemma InitialContents(s: Vm, k: Key)
    requires Initial(s) && Inv(s) && k in s.ptes
    ensures Contents(s, k) == s.flash[k]
  {
  }

  /** Every load returns the last store to its address, or the word the process was loaded with,
    * whatever page-ins, evictions, refills and accesses of other processes lie between. */
  lemma LoadReturnsLastStore(ss: seq<Vm>, es: seq<Event>, n: nat)
    requires Run(ss, es) && n < |es| && es[n].Load?
    ensures Hit(ss[n], es[n].key, es[n].slot) && ss[n].tlb[es[n].slot].pte.Valid?
    ensures ss[n].tlb[es[n].slot].pte.frame < |ss[n].frames| && es[n].offset < PAGEWORDS && es[n].key in ss[0].flash
    ensures ss[n].frames[ss[n].tlb[es[n].slot].pte.frame][es[n].offset]
         == LastStored(es[..n], es[n].key, es[n].offset, ss[0].flash[es[n].key][es[n].offset])
  {
    hide TablesAgree, TlbAgrees, HistoryAgrees, Step;
    RunInv(ss, es, n);
    var e := es[n];
    HitReachesContents(ss[n], e.key, e.slot);
    ContentsAreStored(ss, es, n, e.key, e.offset);
  }

  /** Between two uses of the pager the swap pool table and the page tables are inverse, and every TLB
    * entry is the page table entry of its page. */
  lemma TablesInverse(ss: seq<Vm>, es: seq<Event>, n: nat, k: Key, frame: nat)
    requires Run(ss, es) && n < |ss| && ss[n].phase.Idle? && InLayout(k) && frame < POOLSIZE
    ensures |ss[n].swap| == POOLSIZE && k in ss[n].ptes
    ensures ss[n].swap[frame] == Taken(k) <==> ss[n].ptes[k] == Valid(frame)
    ensures forall i: nat :: Hit(ss[n], k, i) ==> ss[n].tlb[i].pte == ss[n].ptes[k]
    ensures forall i: nat, j: nat :: Hit(ss[n], k, i) && Hit(ss[n], k, j) ==> i == j
  {
    hide FrameOf, HistoryAgrees;
    RunInv(ss, es, n);
  }

  function PageIns(es: seq<Event>): nat {
    if es == [] then 0 else PageIns(es[..|es| - 1]) + (if es[|es| - 1].Map? then 1 else 0)
  }

  lemma StepCounts(s: Vm, e: Event)
    requires Sized(s) && Enabled(s, e)
    ensures |Step(s, e).history| == |s.history| + (if e.Map? then 1 else 0)
  {
    hide FrameOf;
  }

  lemma {:induction false} HistoryCounts(ss: seq<Vm>, es: seq<Event>, n: nat)
    requires Run(ss, es) && n < |ss|
    ensures |ss[n].history| == PageIns(es[..n])
  {
    hide Sized, Enabled, Step;
    if n > 0 {
      var m := n - 1;
      HistoryCounts(ss, es, m);
      StepCounts(ss[m], es[m]);
      assert ss[m + 1] == Step(ss[m], es[m]);
      assert es[..n][..m] == es[..m] && es[..n][m] == es[m];
    }
  }

  lemma VictimInUse(s: Vm)
    requires Inv(s) && !s.phase.Idle?
    ensures s.phase.victim == FrameOf(|s.history|) < |s.swap|
    ensures s.swap[s.phase.victim] ==
      if |s.history| < POOLSIZE then Free else Taken(s.history[|s.history| - POOLSIZE])
  {
    hide FrameOf, TablesAgree, TlbAgrees;
    var n := |s.history|;
    FrameAgain(n);
    if n >= POOLSIZE {
      var i := n - POOLSIZE;
      assert s.swap[FrameOf(i)] == Taken(s.history[i]);
    }
  }

  /** The page-in after n others uses frame n mod 16; from the 17th on it evicts the page that came in
    * 16 page-ins ago, so the one longest in memory. */
  lemma EvictionIsFifo(ss: seq<Vm>, es: seq<Event>, n: nat)
    requires Run(ss, es) && n < |ss| && !ss[n].phase.Idle?
    ensures ss[n].phase.victim == PageIns(es[..n]) % POOLSIZE < |ss[n].swap|
    ensures |ss[n].history| == PageIns(es[..n])
    ensures ss[n].swap[ss[n].phase.victim] ==
      if PageIns(es[..n]) < POOLSIZE then Free else Taken(ss[n].history[PageIns(es[..n]) - POOLSIZE])
  {
    hide Inv, Run;
    RunInv(ss, es, n);
    HistoryCounts(ss, es, n);
    VictimInUse(ss[n]);
  }
}
