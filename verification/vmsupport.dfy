/** phase3/vmSupport.c, the refill handler of phase2/exceptions.c and the tables built by
  * phase3/initProc.c, on their own data: the swap pool table, the hand, the page tables as words and
  * the TLB.  Each section that runs undisturbed refines one step of Pager. */
module VmSupport {
  import opened Pager
  import Words

  const FRAMEPOOLSTART: nat := 0x2003_0000
  const PAGESIZE: nat := 0x1000
  const VALIDON: nat := 0x200
  const DIRTYON: nat := 0x400
  const STACK_VPN: nat := 0xBFFFF       // (USERSTACKTOP >> VPNSHIFT) - 1
  const START_VPN: nat := 0x80000       // UPROCSTARTADDR >> VPNSHIFT
  const WORD: nat := 0x1_0000_0000

  // ---------------------------------------------------------------- virtual page numbers

  /** The virtual page number of entry j of a private page table. */
  function LayoutVpn(j: nat): nat {
    if j < MAXPAGES - 1 then START_VPN + j else STACK_VPN
  }

  /** The table index the pager and the refill handler compute, in unsigned arithmetic. */
  function PageIndex(vpn: nat): nat {
    if vpn == STACK_VPN then MAXPAGES - 1 else (vpn - START_VPN) % WORD
  }

  /** The index is in range for the pages of the layout, to which it is the inverse of LayoutVpn, and
    * for one more page number, 0x8001F, which shares the entry of the stack page. */
  lemma PageIndexExact(vpn: nat, j: nat)
    requires vpn < 0x100000 && j < MAXPAGES
    ensures PageIndex(vpn) == j <==> vpn == LayoutVpn(j) || (vpn == 0x8001F && j == MAXPAGES - 1)
  {
    if vpn < START_VPN {
      assert (vpn - START_VPN) % WORD == vpn - START_VPN + WORD;
    }
  }

  /** An entry loaded for a page number matches it exactly when the page is in the layout, so a
    * reference to 0x8001F misses the TLB again after every refill. */
  lemma RefillMatchesOnlyLayout(vpn: nat)
    requires vpn < 0x100000 && PageIndex(vpn) < MAXPAGES
    ensures LayoutVpn(PageIndex(vpn)) == vpn <==> vpn != 0x8001F
  {
    PageIndexExact(vpn, PageIndex(vpn));
  }

  // ---------------------------------------------------------------- page table entries

  /** pte_entryHI: (vpn << VPNSHIFT) | (asid << ASIDSHIFT) */
  function EntryHi(k: Key): nat {
    LayoutVpn(k.page) * PAGESIZE + k.asid * 64
  }

  /** Two pages never have the same tag, so updateTLB touches the entry of its own page only. */
  lemma EntryHiInjective(j: Key, k: Key)
    requires InLayout(j) && InLayout(k) && EntryHi(j) == EntryHi(k)
    ensures j == k
  {
  }

  /** The word the pager builds for a frame. */
  function MappedWord(frame: nat): nat {
    (FRAMEPOOLSTART + frame * PAGESIZE) / PAGESIZE * PAGESIZE + VALIDON + DIRTYON
  }

  predicate IsValid(word: nat) {
    word / VALIDON % 2 == 1
  }

  /** pte_entryLO & ~VALIDON */
  function Cleared(word: nat): nat {
    if IsValid(word) then word - VALIDON else word
  }

  /** What the TLB makes of a word. */
  predicate Encodes(word: nat, pte: Pte) {
    match pte
    case Invalid => !IsValid(word)
    case Valid(frame) => IsValid(word) && word / PAGESIZE == FRAMEPOOLSTART / PAGESIZE + frame
  }

  /** The table entry of a page. */
  predicate EntryIs(e: PteEntry, k: Key, pte: Pte) {
    e.hi == EntryHi(k) && Encodes(e.lo, pte)
  }

  lemma MappedEncodes(frame: nat)
    requires frame < POOLSIZE
    ensures Encodes(MappedWord(frame), Valid(frame))
    ensures Encodes(Cleared(MappedWord(frame)), Invalid)
  {
  }

  lemma ClearedIsInvalid(word: nat)
    ensures Encodes(Cleared(word), Invalid)
  {
  }

  /** (pfn << VPNSHIFT) | VALIDON | DIRTYON, where pfn = (FRAMEPOOLSTART + frame * PAGESIZE) >> VPNSHIFT */
  lemma MappedWordIsBits(frame: nat)
    requires frame < POOLSIZE
    ensures MappedWord(frame) < WORD
    ensures MappedWord(frame) ==
      Words.Or(Words.Or(Words.Shl(Words.Shr(FRAMEPOOLSTART + frame * PAGESIZE, 12), 12), VALIDON), DIRTYON)
  {
    Powers();
    hide Words.Pow2, Words.Shr;
    Words.ShrIsQuotient(FRAMEPOOLSTART + frame * PAGESIZE, 12);
    MappedIsOr(Words.Shr(FRAMEPOOLSTART + frame * PAGESIZE, 12));
  }

  /** pte_entryLO & ~VALIDON, for every word; VALIDON is bit 9. */
  lemma ClearedIsBits(word: nat)
    ensures Cleared(word) == Words.AndNot(word, VALIDON)
    ensures IsValid(word) <==> Words.Bit(word, 9)
  {
    Powers();
    hide Words.Pow2, Words.Shr, Words.AndNot;
    Words.ClearBit(word, 9);
    Words.ShrIsQuotient(word, 9);
  }

  /** (vpn << VPNSHIFT) | (asid << ASIDSHIFT), and entry_hi >> VPNSHIFT, which gives the page back. */
  lemma TagIsBits(k: Key)
    requires InLayout(k)
    ensures EntryHi(k) == Words.Or(Words.Shl(LayoutVpn(k.page), 12), Words.Shl(k.asid, 6)) < WORD
    ensures Words.Shr(EntryHi(k), 12) == LayoutVpn(k.page) && PageIndex(Words.Shr(EntryHi(k), 12)) == k.page
  {
    Powers();
    hide Words.Pow2, Words.Or, Words.Shl, Words.Shr;
    Words.ShlIsProduct(k.asid, 6);
    Words.ShlIsProduct(LayoutVpn(k.page), 12);
    Words.OrIsSum(LayoutVpn(k.page), Words.Shl(k.asid, 6), 12);
    Words.ShrIsQuotient(EntryHi(k), 12);
    PageIndexExact(LayoutVpn(k.page), k.page);
  }

  lemma Powers()
    ensures Words.Pow2(6) == 64 && Words.Pow2(9) == VALIDON && Words.Pow2(10) == DIRTYON && Words.Pow2(12) == PAGESIZE
  {
    assert Words.Pow2(3) == 8;
    assert Words.Pow2(6) == 64;
    assert Words.Pow2(9) == 512;
  }

  lemma MappedIsOr(pfn: nat)
    ensures Words.Or(Words.Or(Words.Shl(pfn, 12), VALIDON), DIRTYON) == pfn * PAGESIZE + VALIDON + DIRTYON
  {
    Powers();
    hide Words.Pow2, Words.Or, Words.Shl;
    Words.ShlIsProduct(pfn, 12);
    Words.ShlIsProduct(1, 10);
    Words.OrIsSum(pfn, VALIDON, 12);
    Words.OrSplit(pfn, VALIDON, DIRTYON, 12);
    Words.OrCommutes(VALIDON, DIRTYON);
    Words.OrIsSum(1, VALIDON, 10);
  }

  /** The same on machine words. */
  lemma WordsAreBits(frame: bv32, word: bv32)
    requires frame < 16
    ensures ((((0x2003_0000 + (frame << 12)) >> 12) << 12) | 0x200 | 0x400) as nat == MappedWord(frame as nat)
    ensures (((0x2003_0000 + (frame << 12)) >> 12) << 12) | 0x200 | 0x400 == 0x2003_0000 + (frame << 12) + 0x200 + 0x400
    ensures word & !0x200 == if (word >> 9) & 1 == 1 then word - 0x200 else word
  {
  }

  // ---------------------------------------------------------------- memory

  datatype Ref = Null | PteOf(key: Key)            // a pteEntry_t *
  datatype PteEntry = PteEntry(hi: nat, lo: nat)   // pteEntry_t
  datatype TlbWord = Nothing | Loaded(entry: PteEntry)

  class Memory {
    const swAsid: array<int>        // swap_pool_table
    const swPageNo: array<int>
    const swPte: array<Ref>
    var fifoHand: nat
    const pgTbl: array2<PteEntry>   // sup_privatePgTbl, by asid - 1
    const frames: array<Page>
    const tlb: array<TlbWord>
    var flash: map<Key, Page>
    ghost var vm: Vm

    ghost predicate SlotIs(i: nat, slot: Slot)
      requires i < POOLSIZE && swAsid.Length == swPageNo.Length == swPte.Length == POOLSIZE
      reads swAsid, swPageNo, swPte
    {
      match slot
      case Free => swAsid[i] == -1
      case Taken(k) => swAsid[i] == k.asid && swPageNo[i] == k.page && swPte[i] == PteOf(k)
    }

    ghost predicate TlbIs(i: nat, entry: TlbEntry)
      requires i < tlb.Length
      reads tlb
    {
      match entry
      case Empty => tlb[i] == Nothing
      case Entry(k, pte) => tlb[i].Loaded? && tlb[i].entry.hi == EntryHi(k) && Encodes(tlb[i].entry.lo, pte)
    }

    ghost predicate Shape() {
      && swAsid.Length == swPageNo.Length == swPte.Length == POOLSIZE
      && swAsid != swPageNo
      && pgTbl.Length0 == UPROCMAX && pgTbl.Length1 == MAXPAGES
      && frames.Length == POOLSIZE
    }

    ghost predicate SwapRep(swap: seq<Slot>)
      requires Shape() && |swap| == POOLSIZE
      reads swAsid, swPageNo, swPte
    {
      forall i: nat :: i < POOLSIZE ==> SlotIs(i, swap[i])
    }

    ghost predicate PtesRep(ptes: map<Key, Pte>)
      requires Shape() && forall k :: k in ptes <==> InLayout(k)
      reads pgTbl
    {
      forall k :: InLayout(k) ==> EntryIs(pgTbl[k.asid - 1, k.page], k, ptes[k])
    }

    ghost predicate TlbRep(entries: seq<TlbEntry>)
      reads tlb
    {
      |entries| == tlb.Length && forall i: nat :: i < tlb.Length ==> TlbIs(i, entries[i])
    }

    /** The tables hold the state of the model. */
    ghost predicate Rep(s: Vm)
      requires Sized(s)
      reads this, swAsid, swPageNo, swPte, pgTbl, frames, tlb
    {
      && Shape()
      && SwapRep(s.swap)
      && PtesRep(s.ptes)
      && TlbRep(s.tlb)
      && fifoHand == s.hand
      && frames[..] == s.frames
      && flash == s.flash
    }

    ghost predicate Valid()
      reads this, swAsid, swPageNo, swPte, pgTbl, frames, tlb
    {
      Inv(vm) && Rep(vm)
    }

    // -------------------------------------------------------------- test

    /** The tables before any process runs; flash devices and frames hold anything, the TLB nothing. */
    constructor (tlbSize: nat, blocks: map<Key, Page>, memory: seq<Page>)
      requires (forall k :: k in blocks <==> InLayout(k)) && |memory| == POOLSIZE
      ensures Valid() && Initial(vm) && vm.flash == blocks && vm.frames == memory
      ensures fresh(swAsid) && fresh(swPageNo) && fresh(swPte) && fresh(pgTbl) && fresh(frames) && fresh(tlb)
    {
      hide TablesAgree, TlbAgrees, HistoryAgrees, Initial;
      swAsid, swPageNo := new int[POOLSIZE], new int[POOLSIZE];
      swPte := new Ref[POOLSIZE](i => Null);
      pgTbl := new PteEntry[UPROCMAX, MAXPAGES]((i, j) => PteEntry(0, 0));
      frames := new Page[POOLSIZE](i requires 0 <= i < POOLSIZE => memory[i]);
      tlb := new TlbWord[tlbSize](i => Nothing);
      fifoHand, flash := 0, blocks;
      vm := Blank(tlbSize, blocks, memory);
      new;
      InitSwapTable(vm.swap);
      BlankIsInitial(tlbSize, blocks, vm.frames);
      InitialInv(vm);
      InitPageTables(vm.ptes);
    }

    method InitSwapTable(ghost swap: seq<Slot>)
      requires Shape() && swap == seq(POOLSIZE, i => Free)
      modifies swAsid, swPageNo, swPte
      ensures SwapRep(swap)
    {
      for i := 0 to POOLSIZE
        invariant forall j :: 0 <= j < i ==> swAsid[j] == -1
      {
        swAsid[i] := -1;
        swPageNo[i] := -1;
        swPte[i] := Null;
      }
    }

    /** An entry before its page was ever read in. */
    static function FirstEntry(i: nat, j: nat): PteEntry {
      PteEntry(EntryHi(Key(i + 1, j)), DIRTYON)
    }

    method InitPageTables(ghost ptes: map<Key, Pte>)
      requires Shape() && (forall k :: k in ptes <==> InLayout(k)) && forall k :: k in ptes ==> ptes[k] == Invalid
      modifies pgTbl
      ensures PtesRep(ptes)
    {
      for i := 0 to UPROCMAX
        invariant forall a, p :: 0 <= a < i && 0 <= p < MAXPAGES ==> pgTbl[a, p] == FirstEntry(a, p)
      {
        for j := 0 to MAXPAGES
          invariant forall a, p :: 0 <= a < i && 0 <= p < MAXPAGES ==> pgTbl[a, p] == FirstEntry(a, p)
          invariant forall p :: 0 <= p < j ==> pgTbl[i, p] == FirstEntry(i, p)
        {
          var vpn := if j < MAXPAGES - 1 then 0x80000 + j else 0xBFFFF;
          pgTbl[i, j] := PteEntry(vpn * PAGESIZE + (i + 1) * 64, DIRTYON);
        }
      }
    }

    static ghost function Blank(tlbSize: nat, blocks: map<Key, Page>, frames: seq<Page>): Vm {
      Vm(map a: nat, p: nat | 1 <= a <= UPROCMAX && p < MAXPAGES :: Key(a, p) := Invalid, blocks, frames,
         seq(POOLSIZE, i => Free), 0, seq(tlbSize, i => Empty), Idle, {}, [])
    }

    static lemma BlankIsInitial(tlbSize: nat, blocks: map<Key, Page>, frames: seq<Page>)
      requires (forall k :: k in blocks <==> InLayout(k)) && |frames| == POOLSIZE
      ensures Initial(Blank(tlbSize, blocks, frames))
    {
      forall k ensures k in Blank(tlbSize, blocks, frames).ptes <==> InLayout(k) {
        if InLayout(k) {
          assert k == Key(k.asid, k.page);
        }
      }
    }

    // -------------------------------------------------------------- getSwapFrame

    method IsSwapFrameFree(frame: nat) returns (b: bool)
      requires Valid() && frame < POOLSIZE
      ensures b <==> vm.swap[frame].Free?
    {
      assert SlotIs(frame, vm.swap[frame]);
      b := swAsid[frame] == -1;
    }

    method GetFifoFrame() returns (frame: nat)
      modifies `fifoHand
      ensures frame == old(fifoHand) && fifoHand == (frame + 1) % POOLSIZE
    {
      frame := fifoHand;
      fifoHand := (fifoHand + 1) % POOLSIZE;
    }

    /** The mutex is granted and the victim chosen. */
    method GetSwapFrame(ghost k: Key) returns (frame: nat)
      requires Valid() && Enabled(vm, Claim(k))
      modifies `fifoHand, `vm
      ensures Valid() && vm == Step(old(vm), Claim(k)) && frame == vm.phase.victim
    {
      hide TablesAgree, TlbAgrees, HistoryAgrees, SwapRep, PtesRep, TlbRep;
      ClaimKeeps(vm, k);
      var i := 0;
      while i < POOLSIZE
        invariant Valid() && vm == old(vm)
        invariant i <= POOLSIZE && FirstFree(vm.swap, 0) == FirstFree(vm.swap, i)
      {
        var free := IsSwapFrameFree(i);
        if free {
          vm := Step(vm, Claim(k));
          return i;
        }
        i := i + 1;
      }
      frame := GetFifoFrame();
      vm := Step(vm, Claim(k));
    }

    // -------------------------------------------------------------- page-out

    /** k_pte->pte_entryLO &= ~VALIDON */
    method Unmap(victim: nat)
      requires Valid() && Enabled(vm, Event.Unmap) && victim == vm.phase.victim
      modifies pgTbl, `vm
      ensures Valid() && vm == Step(old(vm), Event.Unmap)
    {
      hide TablesAgree, TlbAgrees, HistoryAgrees, TlbRep, IsValid, Cleared;
      ghost var k := vm.swap[victim].key;
      assert SlotIs(victim, vm.swap[victim]);
      var pte := swPte[victim];
      UnmapKeeps(vm);
      var e := pgTbl[pte.key.asid - 1, pte.key.page];
      ClearedIsInvalid(e.lo);
      pgTbl[pte.key.asid - 1, pte.key.page] := e.(lo := Cleared(e.lo));
      vm := Step(vm, Event.Unmap);
    }

    /** TLBP: the entry with this tag, or tlb.Length. */
    function Probe(hi: nat, i: nat): (r: nat)
      requires i <= tlb.Length
      reads tlb
      ensures i <= r <= tlb.Length
      ensures r < tlb.Length ==> tlb[r].Loaded? && tlb[r].entry.hi == hi
      ensures forall j :: i <= j < r ==> !(tlb[j].Loaded? && tlb[j].entry.hi == hi)
      decreases tlb.Length - i
    {
      if i == tlb.Length || (tlb[i].Loaded? && tlb[i].entry.hi == hi) then i else Probe(hi, i + 1)
    }

    method UpdateTlbEntry(k: Key, ghost s: Vm, ghost pte: Pte)
      requires Shape() && InLayout(k) && EntryIs(pgTbl[k.asid - 1, k.page], k, pte)
      requires Sized(s) && TlbAgrees(s) && TlbRep(s.tlb)
      modifies tlb
      ensures TlbRep(UpdateTlb(s.tlb, k, pte))
    {
      var e := pgTbl[k.asid - 1, k.page];
      var i := Probe(e.hi, 0);
      forall j: nat | j < tlb.Length && s.tlb[j].Entry? && s.tlb[j].key == k ensures j == i {
        assert TlbIs(j, s.tlb[j]);
        if i < j {
          assert TlbIs(i, s.tlb[i]);
          EntryHiInjective(s.tlb[i].key, k);
        }
      }
      ghost var before := tlb[..];
      if i < tlb.Length {
        assert TlbIs(i, s.tlb[i]);
        EntryHiInjective(s.tlb[i].key, k);
        tlb[i] := Loaded(e);
      }
      forall j: nat | j < tlb.Length ensures TlbIs(j, UpdateTlb(s.tlb, k, pte)[j]) {
        assert old(TlbIs(j, s.tlb[j]));
      }
    }

    lemma PteWord(k: Key)
      requires Valid() && InLayout(k)
      ensures k in vm.ptes && EntryIs(pgTbl[k.asid - 1, k.page], k, vm.ptes[k])
    {
    }

    /** The start of the page-out: updateTLB, then the wait for the flash device. */
    method StartWrite(victim: nat)
      requires Valid() && Enabled(vm, Event.StartWrite) && victim == vm.phase.victim
      modifies tlb, `vm
      ensures Valid() && vm == Step(old(vm), Event.StartWrite)
    {
      hide TablesAgree, HistoryAgrees, UpdateTlb, Encodes, PtesRep;
      assert SlotIs(victim, vm.swap[victim]);
      var k := swPte[victim].key;
      PteWord(k);
      StartWriteKeeps(vm);
      UpdateTlbEntry(k, vm, vm.ptes[k]);
      vm := Step(vm, Event.StartWrite);
    }

    // -------------------------------------------------------------- flash transfers

    /** read_or_write_flash, FLASHWRITE: the block named by the swap pool table becomes the frame. */
    method FinishWrite(victim: nat)
      requires Valid() && Enabled(vm, Event.FinishWrite) && victim == vm.phase.victim
      modifies `flash, `vm
      ensures Valid() && vm == Step(old(vm), Event.FinishWrite)
    {
      hide TablesAgree, TlbAgrees, HistoryAgrees, PtesRep, TlbRep;
      assert SlotIs(victim, vm.swap[victim]);
      FlashKeeps(vm, Event.FinishWrite);
      flash := flash[Key(swAsid[victim], swPageNo[victim]) := frames[victim]];
      vm := Step(vm, Event.FinishWrite);
    }

    ghost method StartRead()
      requires Valid() && Enabled(vm, Event.StartRead)
      modifies `vm
      ensures Valid() && vm == Step(old(vm), Event.StartRead)
    {
      hide TablesAgree, TlbAgrees, HistoryAgrees, SwapRep, PtesRep, TlbRep;
      FlashKeeps(vm, Event.StartRead);
      vm := Step(vm, Event.StartRead);
    }

    /** read_or_write_flash, FLASHREAD: the frame becomes the block. */
    method FinishRead(k: Key, victim: nat)
      requires Valid() && Enabled(vm, Event.FinishRead) && victim == vm.phase.victim && k == vm.phase.fault
      modifies frames, `vm
      ensures Valid() && vm == Step(old(vm), Event.FinishRead)
    {
      hide TablesAgree, TlbAgrees, HistoryAgrees, PtesRep, TlbRep, SwapRep;
      FlashKeeps(vm, Event.FinishRead);
      frames[victim] := flash[k];
      vm := Step(vm, Event.FinishRead);
    }

    // -------------------------------------------------------------- page-in

    method UpdateSwapPoolEntry(frame: nat, page: nat, asid: nat, pte: Ref)
      requires Shape() && frame < POOLSIZE
      modifies swAsid, swPageNo, swPte
      ensures swAsid[..] == old(swAsid[..])[frame := asid]
      ensures swPageNo[..] == old(swPageNo[..])[frame := page]
      ensures swPte[..] == old(swPte[..])[frame := pte]
    {
      swPageNo[frame] := page;
      swAsid[frame] := asid;
      swPte[frame] := pte;
    }

    /** The end of the pager's critical section. */
    method Install(k: Key, victim: nat)
      requires Valid() && Enabled(vm, Event.Map) && victim == vm.phase.victim && k == vm.phase.fault
      modifies swAsid, swPageNo, swPte, pgTbl, tlb, `vm
      ensures Valid() && vm == Step(old(vm), Event.Map)
    {
      hide TablesAgree, TlbAgrees, HistoryAgrees, UpdateTlb, Encodes, IsValid, MappedWord, Step;
      MapKeeps(vm);
      MapStep(vm);
      InstallSwapEntry(k, victim, vm.swap);
      InstallPte(k, victim, vm.ptes);
      UpdateTlbEntry(k, vm, Pte.Valid(victim));
      vm := Step(vm, Event.Map);
    }

    lemma MapStep(s: Vm)
      requires Inv(s) && Enabled(s, Event.Map)
      ensures var (f, v, s') := (s.phase.fault, s.phase.victim, Step(s, Event.Map));
        && s'.swap == s.swap[v := Taken(f)] && s'.ptes == s.ptes[f := Pte.Valid(v)]
        && s'.tlb == UpdateTlb(s.tlb, f, Pte.Valid(v))
        && s'.hand == s.hand && s'.frames == s.frames && s'.flash == s.flash
    {
      hide TablesAgree, TlbAgrees, HistoryAgrees, UpdateTlb;
    }

    method InstallSwapEntry(k: Key, victim: nat, ghost swap: seq<Slot>)
      requires Shape() && victim < POOLSIZE == |swap| && SwapRep(swap)
      modifies swAsid, swPageNo, swPte
      ensures SwapRep(swap[victim := Taken(k)])
    {
      UpdateSwapPoolEntry(victim, k.page, k.asid, PteOf(k));
      ghost var swap' := swap[victim := Taken(k)];
      forall i: nat | i < POOLSIZE ensures SlotIs(i, swap'[i]) {
        assert old(SlotIs(i, swap[i]));
        assert swAsid[i] == swAsid[..][i] && swPageNo[i] == swPageNo[..][i] && swPte[i] == swPte[..][i];
      }
    }

    method InstallPte(k: Key, victim: nat, ghost ptes: map<Key, Pte>)
      requires Shape() && victim < POOLSIZE && InLayout(k) && (forall j :: j in ptes <==> InLayout(j)) && PtesRep(ptes)
      modifies pgTbl
      ensures PtesRep(ptes[k := Pte.Valid(victim)])
    {
      hide Encodes, MappedWord;
      MappedEncodes(victim);
      pgTbl[k.asid - 1, k.page] := pgTbl[k.asid - 1, k.page].(lo := MappedWord(victim));
    }

    // -------------------------------------------------------------- pager

    /** The whole handler, when no other process runs at its waits: what every process sees of memory is
      * what it was, and the page that faulted is in the frame whose turn it is. */
    method PageFault(asid: nat, vpn: nat, modification: bool) returns (trapped: bool)
      requires Valid() && 1 <= asid <= UPROCMAX && vpn < 0x100000
      requires vm.phase.Idle?
      requires !modification && PageIndex(vpn) < MAXPAGES ==> Key(asid, PageIndex(vpn)) in vm.faulted
      modifies this, swAsid, swPageNo, swPte, pgTbl, frames, tlb
      ensures Valid() && Flat(vm) == old(Flat(vm))
      ensures trapped <==> modification || PageIndex(vpn) >= MAXPAGES
      ensures trapped ==> vm == old(vm)
      ensures !trapped ==> vm.phase.Idle? && vm.faulted == old(vm.faulted) - {Key(asid, PageIndex(vpn))}
      ensures !trapped ==> vm.history == old(vm.history) + [Key(asid, PageIndex(vpn))]
      ensures !trapped ==> Key(asid, PageIndex(vpn)) in vm.ptes
      ensures !trapped ==> vm.ptes[Key(asid, PageIndex(vpn))] == Pte.Valid(|old(vm.history)| % POOLSIZE)
    {
      if PageIndex(vpn) >= MAXPAGES || modification {
        return true;
      }
      Serve(Key(asid, PageIndex(vpn)));
      trapped := false;
    }

    /** The pager from getMutex on. */
    method Serve(k: Key)
      requires Valid() && Enabled(vm, Claim(k))
      modifies this, swAsid, swPageNo, swPte, pgTbl, frames, tlb
      ensures Valid() && Flat(vm) == old(Flat(vm)) && vm.phase.Idle?
      ensures vm.faulted == old(vm.faulted) - {k} && vm.history == old(vm.history) + [k]
      ensures k in vm.ptes && vm.ptes[k] == Pte.Valid(|old(vm.history)| % POOLSIZE)
    {
      hide Inv, Rep, Sized, Step, Flat, SwapFrame;
      ClaimEffect(vm, k);
      var victim := GetSwapFrame(k);
      var free := IsSwapFrameFree(victim);
      if !free {
        PageOut(victim);
      }
      PageIn(k, victim);
    }

    lemma ClaimEffect(s: Vm, k: Key)
      requires Inv(s) && Enabled(s, Claim(k))
      ensures Inv(Step(s, Claim(k))) && Flat(Step(s, Claim(k))) == Flat(s)
      ensures var s' := Step(s, Claim(k));
        && s'.phase == Chosen(k, |s.history| % POOLSIZE) && |s'.swap| == POOLSIZE
        && s'.faulted == s.faulted && s'.history == s.history
    {
      hide TablesAgree, TlbAgrees, HistoryAgrees, Flat;
      StepRefinesFlat(s, Claim(k));
      VictimIsOldest(s);
    }

    lemma TransferEffect(s: Vm, e: Event)
      requires Inv(s) && Enabled(s, e)
      requires e.Unmap? || e.StartWrite? || e.FinishWrite? || e.StartRead? || e.FinishRead?
      ensures Inv(Step(s, e)) && Flat(Step(s, e)) == Flat(s)
      ensures Step(s, e).faulted == s.faulted && Step(s, e).history == s.history
      ensures var (f, v) := (s.phase.fault, s.phase.victim);
        Step(s, e).phase == match e
          case Unmap => Unmapped(f, v)
          case StartWrite => Writing(f, v)
          case FinishWrite => Evicted(f, v)
          case StartRead => Reading(f, v)
          case _ => Arrived(f, v)
    {
      hide TablesAgree, TlbAgrees, HistoryAgrees, Flat, UpdateTlb;
      StepRefinesFlat(s, e);
    }

    lemma MapEffect(s: Vm)
      requires Inv(s) && Enabled(s, Event.Map)
      ensures var (f, v, s') := (s.phase.fault, s.phase.victim, Step(s, Event.Map));
        && Inv(s') && Flat(s') == Flat(s) && s'.phase.Idle?
        && s'.faulted == s.faulted - {f} && s'.history == s.history + [f]
        && f in s'.ptes && s'.ptes[f] == Pte.Valid(v)
    {
      hide TablesAgree, TlbAgrees, HistoryAgrees, Flat, UpdateTlb;
      StepRefinesFlat(s, Event.Map);
    }

    method PageOut(victim: nat)
      requires Valid() && Enabled(vm, Event.Unmap) && victim == vm.phase.victim
      modifies pgTbl, tlb, `flash, `vm
      ensures Valid() && Flat(vm) == old(Flat(vm))
      ensures vm.phase == Evicted(old(vm).phase.fault, victim)
      ensures vm.faulted == old(vm.faulted) && vm.history == old(vm.history)
    {
      hide Inv, Rep, Step, Flat, Sized;
      TransferEffect(vm, Event.Unmap);
      Unmap(victim);
      TransferEffect(vm, Event.StartWrite);
      StartWrite(victim);
      TransferEffect(vm, Event.FinishWrite);
      FinishWrite(victim);
    }

    method PageIn(k: Key, victim: nat)
      requires Valid() && Enabled(vm, Event.StartRead) && victim == vm.phase.victim && k == vm.phase.fault
      modifies swAsid, swPageNo, swPte, pgTbl, tlb, frames, `vm
      ensures Valid() && Flat(vm) == old(Flat(vm)) && vm.phase.Idle?
      ensures vm.faulted == old(vm.faulted) - {k} && vm.history == old(vm.history) + [k]
      ensures k in vm.ptes && vm.ptes[k] == Pte.Valid(victim)
    {
      hide Inv, Rep, Step, Flat, Sized;
      TransferEffect(vm, Event.StartRead);
      StartRead();
      TransferEffect(vm, Event.FinishRead);
      FinishRead(k, victim);
      MapEffect(vm);
      Install(k, victim);
    }

    // -------------------------------------------------------------- uTLB_RefillHandler

    /** vpn is the page number in the saved entry_hi, slot the TLB entry that TLBWR picks.  Out of range,
      * the handler switches to the process's general exception context.  In range, it loads the entry at
      * the computed index, which matches the reference unless that is to 0x8001F.  On a TLB miss of a
      * page of the layout this is the refill step. */
    method RefillHandler(asid: nat, vpn: nat, slot: nat) returns (passedOn: bool)
      requires Valid() && 1 <= asid <= UPROCMAX && vpn < 0x100000 && slot < tlb.Length
      modifies tlb, `vm
      ensures passedOn <==> PageIndex(vpn) >= MAXPAGES
      ensures passedOn ==> tlb[..] == old(tlb[..]) && vm == old(vm)
      ensures !passedOn ==> tlb[..] == old(tlb[..])[slot := Loaded(pgTbl[asid - 1, PageIndex(vpn)])]
      ensures !passedOn ==> (tlb[slot].entry.hi == vpn * PAGESIZE + asid * 64 <==> vpn != 0x8001F)
      ensures Enabled(old(vm), Refill(Key(asid, PageIndex(vpn)), slot)) ==>
        Valid() && vm == Step(old(vm), Refill(Key(asid, PageIndex(vpn)), slot))
    {
      hide TablesAgree, TlbAgrees, HistoryAgrees, Encodes, PageIndex, SwapRep;
      InRange(vm, asid, PageIndex(vpn), slot);
      if PageIndex(vpn) >= MAXPAGES {
        return true;
      }
      var k := Key(asid, PageIndex(vpn));
      RefillMatchesOnlyLayout(vpn);
      PteWord(k);
      tlb[slot] := Loaded(pgTbl[k.asid - 1, k.page]);
      if Enabled(vm, Refill(k, slot)) {
        RefillKeeps(vm, k, slot);
        forall i: nat | i < tlb.Length ensures TlbIs(i, Step(vm, Refill(k, slot)).tlb[i]) {
          assert old(TlbIs(i, vm.tlb[i]));
        }
        vm := Step(vm, Refill(k, slot));
      }
      passedOn := false;
    }

    static lemma InRange(s: Vm, asid: nat, page: nat, slot: nat)
      requires Sized(s)
      ensures Enabled(s, Refill(Key(asid, page), slot)) ==> page < MAXPAGES
    {
    }
  }
}
