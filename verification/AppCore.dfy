/** What the steps of the application keep of the destinations, the OS handles and the Critical Data Store. */
module AppCore {
  import opened HashChains
  import opened FilterAlgorithm
  import opened FileName
  import opened FileFormat
  import opened DestFile
  import opened DestFileProofs
  import opened App

  // ----- Invariants

  /** The OS-open handles are exactly the defined ones, one per destination, and none was ever misused. */
  ghost predicate HandlesExact(slots: Slots, os: Os) {
    && !os.fault
    && (forall i | 0 <= i < DEST_FILES :: slots[i].handle.Some? ==> slots[i].handle.value in os.open)
    && (forall h | h in os.open :: exists i | 0 <= i < DEST_FILES :: slots[i].handle == Some(h))
    && (forall i, j | 0 <= i < j < DEST_FILES :: slots[i].handle.Some? ==> slots[i].handle != slots[j].handle)
  }

  ghost predicate AllSlots(slots: Slots) {
    forall i | 0 <= i < DEST_FILES :: SlotInv(i, slots[i])
  }

  /** While its handle is good, the CDS holds every count and the enable state. */
  ghost predicate Mirrored(core: Core) {
    core.cds.good ==> core.cds.counts == Counts(core.slots) && core.cds.enabled == core.enabled
  }

  ghost predicate CoreInv(core: Core) {
    AllSlots(core.slots) && HandlesExact(core.slots, core.os) && Mirrored(core) && core.enabled < 256
  }

  ghost predicate TableFits(dest: DestTable) {
    forall i | 0 <= i < DEST_FILES :: EntryFits(dest[i])
  }

  /** Files are open only while a destination table is loaded. */
  ghost predicate DestInv(core: Core, dest: Option<DestTable>) {
    if dest.Some? then TableFits(dest.value)
    else forall i | 0 <= i < DEST_FILES :: core.slots[i].handle.None?
  }

  // ----- One destination at a time

  lemma HandlesAfter(slots: Slots, os: Os, i: nat, s: Slot, os': Os)
    requires i < DEST_FILES && HandlesExact(slots, os)
    requires HandleMoves(os, os', slots[i].handle, s.handle)
    ensures HandlesExact(slots[i := s], os')
  {
    var slots' := slots[i := s];
    forall h | h in os'.open ensures exists j | 0 <= j < DEST_FILES :: slots'[j].handle == Some(h) {
      if s.handle == Some(h) {
        assert slots'[i].handle == Some(h);
      } else {
        var j :| 0 <= j < DEST_FILES && slots[j].handle == Some(h);
        assert slots'[j].handle == Some(h);
      }
    }
  }

  lemma PutKeeps(core: Core, i: nat, w: World, cdsOk: bool)
    requires CoreInv(core) && i < DEST_FILES && SlotInv(i, w.s)
    requires HandleMoves(core.os, w.os, core.slots[i].handle, w.s.handle)
    requires w.s.count != core.slots[i].count ==> w.synced
    ensures CoreInv(Put(core, i, w, cdsOk))
    ensures Put(core, i, w, cdsOk).slots == core.slots[i := w.s]
  {
    hide SlotInv, HandleMoves, HandlesExact;
    HandlesAfter(core.slots, core.os, i, w.s, w.os);
    if !w.synced {
      assert Counts(core.slots[i := w.s]) == Counts(core.slots);
    }
  }

  lemma HeldBy(core: Core, i: nat)
    requires CoreInv(core) && i < DEST_FILES
    ensures SlotInv(i, core.slots[i]) && Holds(core.os, core.slots[i].handle)
  {
  }

  // ----- Storing a packet

  ghost predicate Kept(io: StoreIo, p: Packet, os: Os) {
    Promised(io.setup, os) && Bounded(io.setup, p.bytes)
  }

  lemma StoreOneKeeps(core: Core, dest: DestTable, i: nat, p: Packet, io: StoreIo)
    requires CoreInv(core) && TableFits(dest) && i < DEST_FILES && Framed(p.bytes) && Kept(io, p, core.os)
    ensures CoreInv(StoreOne(core, dest, i, p, io))
    ensures var s, s' := core.slots[i], StoreOne(core, dest, i, p, io).slots[i];
            if Succeeds(s, dest[i], p.bytes, io.setup) then Appended(s, s', p.bytes) else Disabled(s, s')
    ensures StoreOne(core, dest, i, p, io).slots == core.slots[i := StoreOne(core, dest, i, p, io).slots[i]]
  {
    HeldBy(core, i);
    SetupWriteIs(i, At(core, i), dest[i], p.bytes, io.setup);
    PutKeeps(core, i, SetupWrite(At(core, i), dest[i], i, p.bytes, io.setup), io.cdsOk);
  }

  /** The OS keeps its promises during the first `k` rounds of the filter loop. */
  ghost predicate AllKept(core: Core, dest: DestTable, filters: FilterList, p: Packet, ios: StoreIos, k: nat)
    requires k <= FILTERS
  {
    k == 0 ||
    (&& AllKept(core, dest, filters, p, ios, k - 1)
     && var before := StoreFilters(core, dest, filters, p, ios, k - 1).0;
        Selected(before.slots, filters[k - 1], p) ==> Kept(ios[k - 1], p, before.os))
  }

  /** What the first `k` rounds add to the stored packets of destination `i`: one copy per selecting filter
      whose write goes through. */
  function Added(core: Core, dest: DestTable, filters: FilterList, p: Packet, ios: StoreIos, k: nat, i: nat): seq<Bytes>
    requires k <= FILTERS
  {
    if k == 0 then []
    else
      var before := StoreFilters(core, dest, filters, p, ios, k - 1).0;
      var f := filters[k - 1];
      Added(core, dest, filters, p, ios, k - 1, i) +
      if Selected(before.slots, f, p) && f.fileIndex == i &&
         Succeeds(before.slots[i], dest[i], p.bytes, ios[k - 1].setup)
      then [p.bytes] else []
  }

  lemma {:induction false} StoreFiltersKeeps(core: Core, dest: DestTable, filters: FilterList, p: Packet,
                                             ios: StoreIos, k: nat)
    requires CoreInv(core) && TableFits(dest) && Framed(p.bytes) && k <= FILTERS
    requires AllKept(core, dest, filters, p, ios, k)
    ensures CoreInv(StoreFilters(core, dest, filters, p, ios, k).0)
    ensures forall i | 0 <= i < DEST_FILES ::
              Stored(StoreFilters(core, dest, filters, p, ios, k).0.slots[i]) ==
              Stored(core.slots[i]) + Added(core, dest, filters, p, ios, k, i)
  {
    if k == 0 {
      forall i | 0 <= i < DEST_FILES ensures Stored(core.slots[i]) + [] == Stored(core.slots[i]) {}
    } else {
      StoreFiltersKeeps(core, dest, filters, p, ios, k - 1);
      var before, f := StoreFilters(core, dest, filters, p, ios, k - 1).0, filters[k - 1];
      if Selected(before.slots, f, p) {
        StoreOneKeeps(before, dest, f.fileIndex, p, ios[k - 1]);
      }
      forall i | 0 <= i < DEST_FILES
        ensures Stored(StoreFilters(core, dest, filters, p, ios, k).0.slots[i]) ==
                Stored(core.slots[i]) + Added(core, dest, filters, p, ios, k, i)
      {
        AddedStep(core, dest, filters, p, ios, k, i);
      }
    }
  }

  lemma AddedStep(core: Core, dest: DestTable, filters: FilterList, p: Packet, ios: StoreIos, k: nat, i: nat)
    requires 0 < k <= FILTERS && i < DEST_FILES
    requires var before := StoreFilters(core, dest, filters, p, ios, k - 1).0;
             && Stored(before.slots[i]) == Stored(core.slots[i]) + Added(core, dest, filters, p, ios, k - 1, i)
             && var f, after := filters[k - 1], StoreFilters(core, dest, filters, p, ios, k).0;
                if Selected(before.slots, f, p) && f.fileIndex == i then
                  if Succeeds(before.slots[i], dest[i], p.bytes, ios[k - 1].setup)
                  then Appended(before.slots[i], after.slots[i], p.bytes)
                  else Disabled(before.slots[i], after.slots[i])
                else after.slots[i] == before.slots[i]
    ensures Stored(StoreFilters(core, dest, filters, p, ios, k).0.slots[i]) ==
            Stored(core.slots[i]) + Added(core, dest, filters, p, ios, k, i)
  {
    var x, y := Stored(core.slots[i]), Added(core, dest, filters, p, ios, k - 1, i);
    assert x + y + [p.bytes] == x + (y + [p.bytes]);
    assert x + y + [] == x + (y + []);
  }

  /** Every write that the first `k` rounds attempt goes through. */
  predicate NoFailure(core: Core, dest: DestTable, filters: FilterList, p: Packet, ios: StoreIos, k: nat)
    requires k <= FILTERS
  {
    k == 0 ||
    (&& NoFailure(core, dest, filters, p, ios, k - 1)
     && var before := StoreFilters(core, dest, filters, p, ios, k - 1).0;
        var f := filters[k - 1];
        Selected(before.slots, f, p) ==>
          Succeeds(before.slots[f.fileIndex], dest[f.fileIndex], p.bytes, ios[k - 1].setup))
  }

  /** One copy of the packet for each of the first `k` filters that selects destination `i`. */
  function Copies(slots: Slots, filters: FilterList, p: Packet, k: nat, i: nat): seq<Bytes>
    requires k <= FILTERS
  {
    if k == 0 then []
    else Copies(slots, filters, p, k - 1, i) +
         if Selected(slots, filters[k - 1], p) && filters[k - 1].fileIndex == i then [p.bytes] else []
  }

  /** If no write fails, what is added is one copy per matching filter, judged by the state before the packet. */
  lemma {:induction false} AddedIsCopies(core: Core, dest: DestTable, filters: FilterList, p: Packet,
                                         ios: StoreIos, k: nat, i: nat)
    requires CoreInv(core) && TableFits(dest) && Framed(p.bytes) && k <= FILTERS && i < DEST_FILES
    requires AllKept(core, dest, filters, p, ios, k) && NoFailure(core, dest, filters, p, ios, k)
    ensures Added(core, dest, filters, p, ios, k, i) == Copies(core.slots, filters, p, k, i)
    ensures forall j | 0 <= j < DEST_FILES ::
              StoreFilters(core, dest, filters, p, ios, k).0.slots[j].state == core.slots[j].state
  {
    hide CoreInv, SetupWrite, Succeeds, Kept, IsPacketFiltered, TableFits, Stored;
    if k > 0 {
      AddedIsCopies(core, dest, filters, p, ios, k - 1, i);
      StoreFiltersKeeps(core, dest, filters, p, ios, k - 1);
      var before, f := StoreFilters(core, dest, filters, p, ios, k - 1).0, filters[k - 1];
      if Selected(before.slots, f, p) {
        StoreOneKeeps(before, dest, f.fileIndex, p, ios[k - 1]);
      }
    }
  }

  // ----- What the filters promise

  /** The number in the packet that a filter compares: its sequence count, or its time in sixteenths of a second. */
  function Compared(p: Packet, filterType: nat): nat {
    if filterType == 1 then p.seqCount
    else 16 * ((p.seconds % 2048) as nat) + p.subseconds as nat / 0x1000_0000
  }

  /** The filter promises the packet to destination `i`: it names it, the destination is enabled, and the packet's
      number is among the first N of its group of X from O on. */
  predicate Takes(slots: Slots, f: Parms, p: Packet, i: nat)
    requires i < DEST_FILES
  {
    && f.fileIndex == i && slots[i].state == 1 && 1 <= f.filterType <= 2
    && 1 <= f.n <= f.x && f.o < f.x
    && var v := Compared(p, f.filterType);
       f.o <= v && (v - f.o) % f.x < f.n
  }

  /** Those of the first `k` filters that do. */
  function Takers(slots: Slots, filters: FilterList, p: Packet, k: nat, i: nat): set<nat>
    requires k <= FILTERS && i < DEST_FILES
  {
    set j: nat | j < k && Takes(slots, filters[j], p, i)
  }

  function Repeated(b: Bytes, n: nat): (r: seq<Bytes>)
    ensures |r| == n && forall j | 0 <= j < n :: r[j] == b
  {
    if n == 0 then [] else Repeated(b, n - 1) + [b]
  }

  lemma SelectedIff(slots: Slots, f: Parms, p: Packet, i: nat)
    requires i < DEST_FILES
    ensures f.fileIndex == i && Selected(slots, f, p) <==> Takes(slots, f, p, i)
  {
    hide IsPacketFiltered;
    FilteredIff(p, f);
  }

  lemma {:induction false} CopiesAreTaken(slots: Slots, filters: FilterList, p: Packet, k: nat, i: nat)
    requires k <= FILTERS && i < DEST_FILES
    ensures Copies(slots, filters, p, k, i) == Repeated(p.bytes, |Takers(slots, filters, p, k, i)|)
  {
    hide Selected, Takes;
    if k > 0 {
      CopiesAreTaken(slots, filters, p, k - 1, i);
      SelectedIff(slots, filters[k - 1], p, i);
      var before, after := Takers(slots, filters, p, k - 1, i), Takers(slots, filters, p, k, i);
      assert after == if Takes(slots, filters[k - 1], p, i) then before + {k - 1} else before;
    }
  }

  // ----- Age tests and closing

  ghost predicate TimesOk(ios: CloseIos) {
    forall i | 0 <= i < DEST_FILES :: |ios[i].update.time| == TIME_SIZE
  }

  /** Nothing that was stored changes, nor the enable states and counts. */
  ghost predicate SameStored(slots: Slots, slots': Slots) {
    forall i | 0 <= i < DEST_FILES ::
      Stored(slots'[i]) == Stored(slots[i]) && slots'[i].state == slots[i].state && slots'[i].count == slots[i].count
  }

  /** The first `k` destinations have been tested: none of them is open at or above its limit. */
  ghost predicate Tested(core: Core, core': Core, dest: DestTable, k: nat)
    requires k <= DEST_FILES
  {
    && SameStored(core.slots, core'.slots) && core'.enabled == core.enabled
    && (forall i | 0 <= i < k :: core'.slots[i].handle.Some? ==> core'.slots[i].age < dest[i].maxAge)
    && (forall i | k <= i < DEST_FILES :: core'.slots[i] == core.slots[i])
  }

  lemma {:induction false} AgeAllKeeps(core: Core, dest: DestTable, ios: CloseIos, k: nat)
    requires CoreInv(core) && TimesOk(ios) && k <= DEST_FILES
    ensures CoreInv(AgeAll(core, dest, ios, k)) && Tested(core, AgeAll(core, dest, ios, k), dest, k)
  {
    hide CoreInv, AgeTest, SameStored;
    SameStoredRefl(core.slots);
    if k > 0 {
      AgeAllKeeps(core, dest, ios, k - 1);
      var before := AgeAll(core, dest, ios, k - 1);
      AgeOneKeeps(before, dest, ios[k - 1], k - 1);
      TestedStep(core, before, AgeAll(core, dest, ios, k), dest, k);
    }
  }

  lemma TestedStep(core: Core, before: Core, after: Core, dest: DestTable, k: nat)
    requires 0 < k <= DEST_FILES && Tested(core, before, dest, k - 1) && after.enabled == before.enabled
    requires forall i | 0 <= i < DEST_FILES && i != k - 1 :: after.slots[i] == before.slots[i]
    requires var s, s' := before.slots[k - 1], after.slots[k - 1];
             && Stored(s') == Stored(s) && s'.state == s.state && s'.count == s.count
             && (s'.handle.Some? ==> s'.age < dest[k - 1].maxAge)
    ensures Tested(core, after, dest, k)
  {
  }

  lemma AgeOneKeeps(core: Core, dest: DestTable, io: CloseOutcome, i: nat)
    requires CoreInv(core) && i < DEST_FILES && |io.update.time| == TIME_SIZE
    ensures var w' := AgeTest(At(core, i), dest[i], io.update, io.close);
            && CoreInv(Put(core, i, w', true))
            && Put(core, i, w', true).slots == core.slots[i := w'.s] && Put(core, i, w', true).enabled == core.enabled
            && Stored(w'.s) == Stored(core.slots[i]) && w'.s.state == core.slots[i].state
            && w'.s.count == core.slots[i].count && (w'.s.handle.Some? ==> w'.s.age < dest[i].maxAge)
  {
    var w := At(core, i);
    HeldBy(core, i);
    AgeTestIs(i, w, dest[i], io.update, io.close);
    AgedMoves(i, w, AgeTest(w, dest[i], io.update, io.close), dest[i]);
    PutKeeps(core, i, AgeTest(w, dest[i], io.update, io.close), true);
  }

  lemma AgedMoves(i: nat, w: World, w': World, e: Entry)
    requires SlotInv(i, w.s) && Holds(w.os, w.s.handle) && Aged(i, w, w', e)
    ensures SlotInv(i, w'.s) && HandleMoves(w.os, w'.os, w.s.handle, w'.s.handle)
    ensures Stored(w'.s) == Stored(w.s) && w'.s.state == w.s.state && w'.s.count == w.s.count
    ensures w'.synced == w.synced
    ensures w'.s.handle.Some? ==> w'.s.age < e.maxAge
  {
    if w.s.handle.Some? {
      OlderIsOpen(i, w.s);
    }
  }

  lemma CloseOneKeeps(core: Core, dest: Option<DestTable>, i: nat, io: CloseOutcome)
    requires CoreInv(core) && DestInv(core, dest) && i < DEST_FILES && |io.update.time| == TIME_SIZE
    ensures var core' := CloseOne(core, dest, i, io);
            && CoreInv(core') && DestInv(core', dest) && SameStored(core.slots, core'.slots)
            && core'.slots[i].handle.None? && core'.enabled == core.enabled
            && (forall j | 0 <= j < DEST_FILES && j != i :: core'.slots[j] == core.slots[j])
  {
    hide CloseIfOpen, SlotInv, HandleMoves, CoreInv;
    if core.slots[i].handle.Some? {
      HeldBy(core, i);
      CloseIfOpenIs(i, At(core, i), dest.value[i], io.update, io.close);
      PutKeeps(core, i, CloseIfOpen(At(core, i), dest.value[i], io.update, io.close), true);
    }
  }

  ghost predicate AllClosed(slots: Slots, k: nat)
    requires k <= DEST_FILES
  {
    forall j | 0 <= j < k :: slots[j].handle.None?
  }

  lemma {:induction false} CloseAllKeeps(core: Core, dest: Option<DestTable>, ios: CloseIos, k: nat)
    requires CoreInv(core) && DestInv(core, dest) && TimesOk(ios) && k <= DEST_FILES
    ensures CoreInv(CloseAll(core, dest, ios, k)) && DestInv(CloseAll(core, dest, ios, k), dest)
    ensures SameStored(core.slots, CloseAll(core, dest, ios, k).slots)
    ensures AllClosed(CloseAll(core, dest, ios, k).slots, k) && CloseAll(core, dest, ios, k).enabled == core.enabled
  {
    hide CoreInv, DestInv, SameStored, CloseOne;
    SameStoredRefl(core.slots);
    if k > 0 {
      CloseAllKeeps(core, dest, ios, k - 1);
      var before := CloseAll(core, dest, ios, k - 1);
      CloseOneKeeps(before, dest, k - 1, ios[k - 1]);
      SameStoredTrans(core.slots, before.slots, CloseOne(before, dest, k - 1, ios[k - 1]).slots);
    }
  }

  lemma SameStoredRefl(a: Slots)
    ensures SameStored(a, a)
  {
  }

  lemma SameStoredTrans(a: Slots, b: Slots, c: Slots)
    requires SameStored(a, b) && SameStored(b, c)
    ensures SameStored(a, c)
  {
  }

  // ----- Loads, rates, enabling

  lemma UpdateCdsMirrors(core: Core, ok: bool)
    ensures Mirrored(UpdateCds(core, ok))
    ensures UpdateCds(core, ok).slots == core.slots && UpdateCds(core, ok).os == core.os
    ensures UpdateCds(core, ok).enabled == core.enabled
  {
  }

  /** A change of the slots that touches neither handles nor files. */
  ghost predicate StatusOnly(slots: Slots, slots': Slots) {
    forall i | 0 <= i < DEST_FILES ::
      && slots'[i].handle == slots[i].handle && SlotInv(i, slots'[i]) && Stored(slots'[i]) == Stored(slots[i])
  }

  lemma StatusOnlyKeepsHandles(slots: Slots, slots': Slots, os: Os)
    requires HandlesExact(slots, os) && StatusOnly(slots, slots')
    ensures HandlesExact(slots', os)
  {
    forall h | h in os.open ensures exists i | 0 <= i < DEST_FILES :: slots'[i].handle == Some(h) {
      var i :| 0 <= i < DEST_FILES && slots[i].handle == Some(h);
      assert slots'[i].handle == Some(h);
    }
  }

  lemma LoadSlotKeeps(i: nat, s: Slot, e: Entry)
    requires SlotInv(i, s) && EntryFits(e)
    ensures SlotInv(i, LoadSlot(s, e)) && Stored(LoadSlot(s, e)) == Stored(s)
  {
  }

  lemma LoadKeeps(core: Core, t: DestTable, ok: bool)
    requires CoreInv(core) && VerifyDestTable(t)
    ensures var core' := UpdateCds(core.(slots := LoadSlots(core.slots, t)), ok);
            CoreInv(core') && TableFits(t) && StatusOnly(core.slots, core'.slots)
  {
    forall i | 0 <= i < DEST_FILES ensures EntryFits(t[i]) {
      assert VerifyDestEntry(t[i]);
    }
    forall i | 0 <= i < DEST_FILES
      ensures var s' := LoadSlots(core.slots, t)[i];
              s'.handle == core.slots[i].handle && SlotInv(i, s') && Stored(s') == Stored(core.slots[i])
    {
      LoadSlotKeeps(i, core.slots[i], t[i]);
    }
    StatusOnlyKeepsHandles(core.slots, LoadSlots(core.slots, t), core.os);
    UpdateCdsMirrors(core.(slots := LoadSlots(core.slots, t)), ok);
  }

  lemma RatesKeep(core: Core)
    requires CoreInv(core)
    ensures CoreInv(core.(slots := Rates(core.slots))) && StatusOnly(core.slots, Rates(core.slots))
  {
    forall i | 0 <= i < DEST_FILES
      ensures var s' := Rates(core.slots)[i];
              s'.handle == core.slots[i].handle && SlotInv(i, s') && Stored(s') == Stored(core.slots[i])
    {
    }
    StatusOnlyKeepsHandles(core.slots, Rates(core.slots), core.os);
    assert Counts(Rates(core.slots)) == Counts(core.slots);
  }

  lemma SetStateKeeps(core: Core, i: nat, state: nat)
    requires CoreInv(core) && i < DEST_FILES
    ensures CoreInv(core.(slots := core.slots[i := core.slots[i].(state := state)]))
  {
    var s' := core.slots[i].(state := state);
    HeldBy(core, i);
    assert SlotInv(i, s');
    HandlesAfter(core.slots, core.os, i, s', core.os);
    assert Counts(core.slots[i := s']) == Counts(core.slots);
  }

  lemma SetCountKeeps(core: Core, i: nat, count: nat, ok: bool)
    requires CoreInv(core) && i < DEST_FILES && count <= MAX_SEQUENCE_COUNT
    ensures var s := core.slots[i];
            CoreInv(UpdateCds(core.(slots := core.slots[i := s.(count := count)]), ok))
  {
    var s' := core.slots[i].(count := count);
    HeldBy(core, i);
    assert SlotInv(i, s');
    HandlesAfter(core.slots, core.os, i, s', core.os);
    UpdateCdsMirrors(core.(slots := core.slots[i := s']), ok);
  }
}
