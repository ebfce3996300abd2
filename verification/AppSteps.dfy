/** The invariant of the whole application and why every message and every restart keeps it. */
module AppSteps {
  import opened HashChains
  import opened HashIndex
  import HashRuns
  import opened FilterAlgorithm
  import opened FileName
  import opened FileFormat
  import opened DestFile
  import opened DestFileProofs
  import opened App
  import opened AppCore

  // ----- The filter table

  /** A filter that can be reached from a valid ID: what validation and the three filter commands leave possible. */
  ghost predicate GoodFilter(f: Parms) {
    f.fileIndex < DEST_FILES && VerifyParms(f.n, f.x, f.o) && (f.filterType == 0 || VerifyType(f.filterType))
  }

  ghost predicate GoodEntry(entry: PacketEntry) {
    HashRuns.IsValidMsgId(entry.mid) ==> forall k | 0 <= k < FILTERS :: GoodFilter(entry.filters[k])
  }

  ghost predicate GoodTable(t: FilterTable) {
    forall i | 0 <= i < ENTRIES :: GoodEntry(t[i])
  }

  ghost predicate GoodFilters(filter: Option<FilterTable>) {
    filter.Some? ==> GoodTable(filter.value)
  }

  // ----- The index

  /** The index is zeroed memory while no table is loaded; afterwards it satisfies the run invariant,
      and its links never name an entry outside the table. */
  ghost predicate IndexInv(ix: Index, filter: Option<FilterTable>, added: seq<nat>) {
    && WellFormed(ix) && (forall j | 0 <= j < ENTRIES :: ix.links[j].index < ENTRIES)
    && if filter.Some? then HashRuns.Invariant(HashRuns.State(ix, Mids(filter.value), added)) else ix == Empty()
  }

  lemma LookupInRange(app: App, id: MsgId)
    requires IndexInv(app.ix, app.filter, app.added) && CanFind(app, id)
    ensures -1 <= Lookup(app, id) < ENTRIES
    ensures Lookup(app, id) != -1 ==> MidsOf(app.filter)[Lookup(app, id)] == id
  {
    var p, z :| SearchStopsAt(app.ix, MidsOf(app.filter), id, p, z);
    FindIs(app.ix, MidsOf(app.filter), id, p, z);
  }

  /** Before any table load every lookup ends, and finds nothing. */
  lemma NothingLoadedFindsNothing(app: App, id: MsgId)
    requires IndexInv(app.ix, app.filter, app.added) && app.filter.None?
    ensures CanFind(app, id) && Lookup(app, id) == -1
  {
    EmptyIndexFindsNothing(MidsOf(app.filter), id);
  }

  /** While the adds since the last build were good, every lookup ends with the linear scan's answer. */
  lemma GoodAddsLookup(app: App, id: MsgId)
    requires IndexInv(app.ix, app.filter, app.added) && app.filter.Some? && HashRuns.GoodAdds(app.added)
    ensures CanFind(app, id) && Lookup(app, id) == Scan(Mids(app.filter.value), id)
  {
    var base, tail :| Grown(app.ix, Mids(app.filter.value), base, tail) && forall b :: b in tail <==> b in app.added;
    GrownLookup(app.ix, Mids(app.filter.value), base, tail, id);
  }

  lemma BuildIndexInv(t: FilterTable)
    ensures IndexInv(Build(Mids(t)), Some(t), [])
  {
    BuildIsGrown(Mids(t));
  }

  // ----- The counters

  function Sum(c: Counters): nat {
    c.disabled + c.ignored + c.filtered + c.passed
  }

  /** Every packet offered since the last reset of the counters is in exactly one of the four, modulo 2^32. */
  ghost predicate Accounted(cnt: Counters, attempts: nat) {
    Sum(cnt) % U32 == attempts % U32
  }

  lemma OneMore(n: nat, sum: nat, attempts: nat)
    requires (sum + n) % U32 == attempts % U32
    ensures (sum + (n + 1) % U32) % U32 == (attempts + 1) % U32
  {
    var q := (n + 1) / U32;
    assert (n + 1) % U32 == n + 1 - q * U32;
    assert (sum + n + 1 - q * U32) % U32 == (attempts + 1) % U32;
  }

  lemma StoreAccounts(app: App, p: Packet, ios: StoreIos)
    requires CanStore(app, p) && Accounted(app.cnt, app.attempts)
    ensures Accounted(StorePacket(app, p, ios).cnt, StorePacket(app, p, ios).attempts)
    ensures StorePacket(app, p, ios).attempts == app.attempts + 1
  {
    var c := app.cnt;
    hide CanStore, StoreFilters, Lookup;
    if app.core.enabled == DISABLED {
      OneMore(c.disabled, c.ignored + c.filtered + c.passed, app.attempts);
    } else {
      OneMore(c.ignored, c.disabled + c.filtered + c.passed, app.attempts);
      OneMore(c.filtered, c.disabled + c.ignored + c.passed, app.attempts);
      OneMore(c.passed, c.disabled + c.ignored + c.filtered, app.attempts);
    }
  }

  // ----- The whole invariant

  ghost predicate AppInv(app: App) {
    && CoreInv(app.core) && DestInv(app.core, app.dest)
    && GoodFilters(app.filter) && IndexInv(app.ix, app.filter, app.added)
    && Accounted(app.cnt, app.attempts)
  }

  /** The packet gets as far as the filters of an entry. */
  ghost predicate Reaches(app: App, p: Packet) {
    Ready(app) && CanFindEntry(app, p.mid) && Lookup(app, p.mid) != -1
  }

  ghost function FiltersFor(app: App, p: Packet): FilterList
    requires Reaches(app, p)
  {
    app.filter.value[Lookup(app, p.mid)].filters
  }

  ghost predicate StoreKept(app: App, p: Packet, ios: StoreIos) {
    Framed(p.bytes) && (Reaches(app, p) ==> AllKept(app.core, app.dest.value, FiltersFor(app, p), p, ios, FILTERS))
  }

  lemma StoreKeeps(app: App, p: Packet, ios: StoreIos)
    requires AppInv(app) && CanStore(app, p) && StoreKept(app, p, ios)
    ensures AppInv(StorePacket(app, p, ios))
    ensures forall i | 0 <= i < DEST_FILES ::
              Stored(StorePacket(app, p, ios).core.slots[i]) ==
              Stored(app.core.slots[i]) + StoredBy(app, p, ios, i)
  {
    StoreAccounts(app, p, ios);
    if Reaches(app, p) {
      StoreFiltersKeeps(app.core, app.dest.value, FiltersFor(app, p), p, ios, FILTERS);
    } else {
      forall i | 0 <= i < DEST_FILES ensures Stored(app.core.slots[i]) + [] == Stored(app.core.slots[i]) {}
    }
  }

  /** What offering the packet adds to the stored packets of destination `i`. */
  ghost function StoredBy(app: App, p: Packet, ios: StoreIos, i: nat): seq<Bytes> {
    if Reaches(app, p) then Added(app.core, app.dest.value, FiltersFor(app, p), p, ios, FILTERS, i) else []
  }

  // ----- Commands

  lemma ChangeFilterKeeps(app: App, id: MsgId, k: nat, valid: bool, change: Parms -> Parms)
    requires AppInv(app) && (app.filter.Some? ==> CanFindEntry(app, id))
    requires valid ==> forall f | GoodFilter(f) :: GoodFilter(change(f))
    ensures AppInv(ChangeFilter(app, id, k, valid, change))
    ensures ChangeFilter(app, id, k, valid, change).core == app.core
  {
    var app' := ChangeFilter(app, id, k, valid, change);
    if app'.filter != app.filter {
      LookupInRange(app, id);
      var t, r := app.filter.value, Lookup(app, id);
      assert GoodEntry(t[r]) && GoodFilter(t[r].filters[k]);
      assert Mids(app'.filter.value) == Mids(t);
    }
  }

  lemma AddIndexInv(ix: Index, t: FilterTable, added: seq<nat>, id: MsgId, slot: nat)
    requires IndexInv(ix, Some(t), added) && HashRuns.IsValidMsgId(id)
    requires AddAccepted(ix, Mids(t), id) && Find(ix, Mids(t), INVALID_MSG_ID) == slot
    ensures IndexInv(Add(ix, id, slot), Some(t[slot := ResetEntry(id)]), added + [Hash(id)])
  {
    var s := HashRuns.State(ix, Mids(t), added);
    var s' := HashRuns.State(Add(ix, id, slot), Mids(t[slot := ResetEntry(id)]), added + [Hash(id)]);
    assert s'.mids == s.mids[slot := id];
    assert HashRuns.Step(s, HashRuns.AddMid(id), s');
    HashRuns.StepKeepsInvariant(s, HashRuns.AddMid(id), s');
    AddPointers(ix, id, slot);
  }

  lemma AddTableGood(t: FilterTable, id: MsgId, slot: nat)
    requires GoodTable(t) && slot < ENTRIES
    ensures GoodTable(t[slot := ResetEntry(id)])
  {
  }

  lemma AddKeeps(app: App, id: MsgId)
    requires AppInv(app) && CanAdd(app, id)
    ensures AppInv(AddMidCmd(app, id)) && AddMidCmd(app, id).core == app.core
  {
    if HashRuns.IsValidMsgId(id) && app.filter.Some? && Lookup(app, id) == -1 && Lookup(app, INVALID_MSG_ID) != -1 {
      var slot := Lookup(app, INVALID_MSG_ID);
      AddIndexInv(app.ix, app.filter.value, app.added, id, slot);
      AddTableGood(app.filter.value, id, slot);
    }
  }

  lemma RemoveKeeps(app: App, id: MsgId)
    requires AppInv(app) && CanFindEntry(app, id)
    ensures AppInv(RemoveMidCmd(app, id)) && RemoveMidCmd(app, id).core == app.core
  {
    hide CoreInv, DestInv, IndexInv, GoodTable, CanFind, Lookup, BuildTo;
    if HashRuns.IsValidMsgId(id) && app.filter.Some? && Lookup(app, id) != -1 {
      BuildIndexInv(app.filter.value[Lookup(app, id) := ResetEntry(INVALID_MSG_ID)]);
      RemoveTableGood(app.filter.value, Lookup(app, id));
    }
  }

  lemma RemoveTableGood(t: FilterTable, slot: nat)
    requires GoodTable(t) && slot < ENTRIES
    ensures GoodTable(t[slot := ResetEntry(INVALID_MSG_ID)])
  {
  }

  /** What the OS and cFE promise while a command is carried out. */
  ghost predicate CommandKept(cmd: Command) {
    match cmd
    case CloseFile(_, io) => |io.update.time| == TIME_SIZE
    case CloseAllFiles(ios) => TimesOk(ios)
    case _ => true
  }

  /** The commands on the filter table touch no destination. */
  lemma FilterCommandKeeps(app: App, cmd: Command)
    requires AppInv(app) && CanApply(app, cmd)
    requires cmd.SetFilterFile? || cmd.SetFilterType? || cmd.SetFilterParms? || cmd.AddMID? || cmd.RemoveMID?
    ensures AppInv(Apply(app, cmd)) && Apply(app, cmd).core == app.core
  {
    match cmd
    case SetFilterFile(id, k, fileIndex) =>
      ChangeFilterKeeps(app, id, k, fileIndex < DEST_FILES, (f: Parms) => f.(fileIndex := fileIndex));
    case SetFilterType(id, k, filterType) =>
      ChangeFilterKeeps(app, id, k, VerifyType(filterType), (f: Parms) => f.(filterType := filterType));
    case SetFilterParms(id, k, n, x, o) =>
      ChangeFilterKeeps(app, id, k, VerifyParms(n, x, o), (f: Parms) => f.(n := n, x := x, o := o));
    case AddMID(id) => AddKeeps(app, id);
    case RemoveMID(id) => RemoveKeeps(app, id);
  }

  /** A change of the core alone, or of the core and one table entry. */
  lemma CoreChangeKeeps(app: App, core: Core)
    requires AppInv(app) && CoreInv(core) && DestInv(core, app.dest)
    ensures AppInv(Accept(app.(core := core)))
  {
    hide CoreInv, DestInv, GoodFilters, IndexInv;
  }

  lemma SameStoredIsSameFiles(slots: Slots, slots': Slots)
    requires SameStored(slots, slots')
    ensures SameFiles(slots, slots')
  {
  }

  lemma SameFilesRefl(slots: Slots)
    ensures SameFiles(slots, slots)
  {
  }

  lemma CloseFileKeeps(app: App, i: nat, io: CloseOutcome)
    requires AppInv(app) && |io.update.time| == TIME_SIZE
    ensures AppInv(Apply(app, CloseFile(i, io))) && SameFiles(app.core.slots, Apply(app, CloseFile(i, io)).core.slots)
  {
    hide CloseOne, CoreInv, DestInv, GoodFilters, IndexInv, SameFiles, SameStored;
    SameFilesRefl(app.core.slots);
    if i < DEST_FILES {
      CloseOneKeeps(app.core, app.dest, i, io);
      var core := CloseOne(app.core, app.dest, i, io);
      CoreChangeKeeps(app, core);
      SameStoredIsSameFiles(app.core.slots, core.slots);
    }
  }

  lemma CloseAllFilesKeeps(app: App, ios: CloseIos)
    requires AppInv(app) && TimesOk(ios)
    ensures AppInv(Apply(app, CloseAllFiles(ios))) && SameFiles(app.core.slots, Apply(app,
        CloseAllFiles(ios)).core.slots)
  {
    hide CloseAll, CoreInv, DestInv, GoodFilters, IndexInv, SameFiles, SameStored, TimesOk;
    CloseAllKeeps(app.core, app.dest, ios, DEST_FILES);
    var core := CloseAll(app.core, app.dest, ios, DEST_FILES);
    CoreChangeKeeps(app, core);
    SameStoredIsSameFiles(app.core.slots, core.slots);
  }

  lemma SetAppStateKeeps(app: App, state: nat, cdsOk: bool)
    requires AppInv(app)
    ensures AppInv(Apply(app, SetAppState(state, cdsOk)))
    ensures Apply(app, SetAppState(state, cdsOk)).core.slots == app.core.slots
  {
    if VerifyState(state) {
      UpdateCdsMirrors(app.core.(enabled := state), cdsOk);
      CoreChangeKeeps(app, UpdateCds(app.core.(enabled := state), cdsOk));
    }
  }

  lemma EntryAndCoreKeep(app: App, i: nat, e: Entry, core: Core)
    requires AppInv(app) && DestCommandOk(app, i, true) && EntryFits(e) && CoreInv(core)
    ensures AppInv(Accept(app.(dest := Some(app.dest.value[i := e]), core := core)))
  {
    hide CoreInv, GoodFilters, IndexInv;
  }

  lemma OneSlotSameFiles(slots: Slots, i: nat, s: Slot)
    requires i < DEST_FILES && Stored(s) == Stored(slots[i])
    ensures SameFiles(slots, slots[i := s])
  {
  }

  lemma SetDestStateKeeps(app: App, i: nat, state: nat)
    requires AppInv(app)
    ensures AppInv(Apply(app, SetDestState(i, state)))
    ensures SameFiles(app.core.slots, Apply(app, SetDestState(i, state)).core.slots)
  {
    hide CoreInv, DestInv, GoodFilters, IndexInv, SameFiles, Stored, EntryFits;
    if DestCommandOk(app, i, VerifyState(state)) {
      var s, e := app.core.slots[i].(state := state), app.dest.value[i].(enableState := state);
      var core := app.core.(slots := app.core.slots[i := s]);
      SetStateKeeps(app.core, i, state);
      TableEntryFits(app, i, e);
      EntryAndCoreKeep(app, i, e, core);
      SameStoredFields(app.core.slots[i], s);
      OneSlotSameFiles(app.core.slots, i, s);
    } else {
      SameFilesRefl(app.core.slots);
    }
  }

  lemma TableEntryFits(app: App, i: nat, e: Entry)
    requires DestInv(app.core, app.dest) && DestCommandOk(app, i, true)
    requires e.seqCount == app.dest.value[i].seqCount || e.seqCount <= MAX_SEQUENCE_COUNT
    ensures EntryFits(e)
  {
  }

  lemma SameStoredFields(s: Slot, s': Slot)
    requires s'.log == s.log && s'.packets == s.packets
    ensures Stored(s') == Stored(s)
  {
  }

  lemma SetDestCountKeeps(app: App, i: nat, count: nat, cdsOk: bool)
    requires AppInv(app)
    ensures AppInv(Apply(app, SetDestCount(i, count, cdsOk)))
    ensures SameFiles(app.core.slots, Apply(app, SetDestCount(i, count, cdsOk)).core.slots)
  {
    hide CoreInv, DestInv, GoodFilters, IndexInv, SameFiles, Stored, EntryFits, UpdateCds;
    if DestCommandOk(app, i, count <= MAX_SEQUENCE_COUNT) {
      var s := app.core.slots[i].(count := count);
      var e := app.dest.value[i].(seqCount := count);
      var core := UpdateCds(app.core.(slots := app.core.slots[i := s]), cdsOk);
      SetCountKeeps(app.core, i, count, cdsOk);
      UpdateCdsMirrors(app.core.(slots := app.core.slots[i := s]), cdsOk);
      TableEntryFits(app, i, e);
      EntryAndCoreKeep(app, i, e, core);
      SameStoredFields(app.core.slots[i], s);
      OneSlotSameFiles(app.core.slots, i, s);
    } else {
      SameFilesRefl(app.core.slots);
    }
  }

  lemma CounterCommandKeeps(app: App, cmd: Command)
    requires AppInv(app) && (cmd.Malformed? || cmd.Noop? || cmd.ResetCounters? || cmd.GetFileInfo?)
    ensures AppInv(Apply(app, cmd)) && Apply(app, cmd).core == app.core
  {
    hide CoreInv, DestInv, GoodFilters, IndexInv;
  }

  lemma CommandKeeps(app: App, cmd: Command)
    requires AppInv(app) && CanApply(app, cmd) && CommandKept(cmd)
    ensures AppInv(Apply(app, cmd)) && SameFiles(app.core.slots, Apply(app, cmd).core.slots)
  {
    hide AppInv, SameFiles;
    SameFilesRefl(app.core.slots);
    if cmd.SetFilterFile? || cmd.SetFilterType? || cmd.SetFilterParms? || cmd.AddMID? || cmd.RemoveMID? {
      FilterCommandKeeps(app, cmd);
    } else {
      match cmd
      case CloseFile(i, io) => CloseFileKeeps(app, i, io);
      case CloseAllFiles(ios) => CloseAllFilesKeeps(app, ios);
      case SetAppState(state, cdsOk) => SetAppStateKeeps(app, state, cdsOk);
      case SetDestState(i, state) => SetDestStateKeeps(app, i, state);
      case SetDestCount(i, count, cdsOk) => SetDestCountKeeps(app, i, count, cdsOk);
      case Malformed => CounterCommandKeeps(app, cmd);
      case Noop => CounterCommandKeeps(app, cmd);
      case ResetCounters => CounterCommandKeeps(app, cmd);
      case GetFileInfo => CounterCommandKeeps(app, cmd);
      case _ => EntryCommandKeeps(app, cmd);
    }
  }

  lemma EntryCommandKeeps(app: App, cmd: Command)
    requires AppInv(app)
    ensures AppInv(ApplyToEntry(app, cmd)) && ApplyToEntry(app, cmd).core == app.core
  {
  }

  /** The stored packets are the same before and after. */
  ghost predicate SameFiles(slots: Slots, slots': Slots) {
    forall i | 0 <= i < DEST_FILES :: Stored(slots'[i]) == Stored(slots[i])
  }

  // ----- Loads and housekeeping

  lemma ManageDestKeeps(app: App, load: Option<DestTable>, cdsOk: bool)
    requires AppInv(app)
    ensures AppInv(ManageDest(app, load, cdsOk)) && SameFiles(app.core.slots, ManageDest(app, load, cdsOk).core.slots)
  {
    if load.Some? && VerifyDestTable(load.value) {
      LoadKeeps(app.core, load.value, cdsOk);
    }
  }

  lemma VerifiedIsGood(t: FilterTable)
    requires VerifyFilterTable(t)
    ensures GoodTable(t)
  {
    forall i, k | 0 <= i < ENTRIES && 0 <= k < FILTERS && HashRuns.IsValidMsgId(t[i].mid)
      ensures GoodFilter(t[i].filters[k])
    {
      assert VerifyFilter(t[i].filters[k]);
    }
  }

  lemma ManageFilterKeeps(app: App, load: Option<FilterTable>)
    requires AppInv(app)
    ensures AppInv(ManageFilter(app, load)) && ManageFilter(app, load).core == app.core
  {
    if load.Some? && VerifyFilterTable(load.value) {
      VerifiedIsGood(load.value);
      BuildIndexInv(load.value);
    }
  }

  lemma LoadsKeep(app: App, destLoad: Option<DestTable>, cdsOk: bool, filterLoad: Option<FilterTable>)
    requires AppInv(app)
    ensures AppInv(ManageFilter(ManageDest(app, destLoad, cdsOk), filterLoad))
    ensures SameFiles(app.core.slots, ManageFilter(ManageDest(app, destLoad, cdsOk), filterLoad).core.slots)
  {
    ManageDestKeeps(app, destLoad, cdsOk);
    ManageFilterKeeps(ManageDest(app, destLoad, cdsOk), filterLoad);
  }

  lemma HousekeepingKeeps(app: App, ios: CloseIos, destLoad: Option<DestTable>, cdsOk: bool,
                          filterLoad: Option<FilterTable>)
    requires AppInv(app) && TimesOk(ios)
    ensures AppInv(Housekeeping(app, ios, destLoad, cdsOk, filterLoad))
    ensures SameFiles(app.core.slots, Housekeeping(app, ios, destLoad, cdsOk, filterLoad).core.slots)
  {
    var aged := if app.dest.Some? then app.(core := AgeAll(app.core, app.dest.value, ios, DEST_FILES)) else app;
    if app.dest.Some? {
      AgeAllKeeps(app.core, app.dest.value, ios, DEST_FILES);
    }
    LoadsKeep(aged, destLoad, cdsOk, filterLoad);
    RatesKeep(ManageFilter(ManageDest(aged, destLoad, cdsOk), filterLoad).core);
  }

  /** What the age tests of one housekeeping request do to destination `i`. */
  lemma {:induction false} AgeAllExactly(core: Core, dest: DestTable, ios: CloseIos, k: nat, i: nat)
    requires k <= DEST_FILES && i < DEST_FILES
    ensures var s, s' := core.slots[i], AgeAll(core, dest, ios, k).slots[i];
            if i < k && s.handle.Some? then
              && (s'.handle.Some? <==> Older(s).age < dest[i].maxAge)
              && (s'.handle.Some? ==> s' == Older(s))
            else s' == s
  {
    hide UpdateHeader, MoveTarget;
    if k > 0 {
      AgeAllExactly(core, dest, ios, k - 1, i);
    }
  }

  /** The limits in force after the request: the old ones unless a table that passes is loaded. */
  function LimitAfter(dest: DestTable, load: Option<DestTable>, i: nat): nat
    requires i < DEST_FILES
  {
    if load.Some? && VerifyDestTable(load.value) then load.value[i].maxAge else dest[i].maxAge
  }

  /** The file stays open through the age tests. */
  predicate Survives(s: Slot, limit: nat) {
    s.handle.Some? && Older(s).age < limit
  }

  /** After any housekeeping request no open file has reached the limit that was in force before it; exactly the files
      below it stay open, four seconds older. None has reached the limit in force afterwards if and only if no file that
      stays open is at or above the limit of a table loaded by the same request. */
  lemma NoneOverAge(app: App, ios: CloseIos, destLoad: Option<DestTable>, cdsOk: bool, filterLoad: Option<FilterTable>)
    requires AppInv(app) && TimesOk(ios) && app.dest.Some?
    ensures var app' := Housekeeping(app, ios, destLoad, cdsOk, filterLoad);
            forall i | 0 <= i < DEST_FILES ::
              var s, s', limit := app.core.slots[i], app'.core.slots[i], app.dest.value[i].maxAge;
              (s'.handle.Some? <==> Survives(s, limit)) && (s'.handle.Some? ==> s'.age == Older(s).age < limit)
    ensures var app' := Housekeeping(app, ios, destLoad, cdsOk, filterLoad);
            && app'.dest.Some?
            && ((forall i | 0 <= i < DEST_FILES && app'.core.slots[i].handle.Some? ::
                   app'.core.slots[i].age < app'.dest.value[i].maxAge) <==>
                (forall i | 0 <= i < DEST_FILES && Survives(app.core.slots[i], app.dest.value[i].maxAge) ::
                   Older(app.core.slots[i]).age < LimitAfter(app.dest.value, destLoad, i)))
  {
    hide AppInv, AgeAll, Build, TimesOk;
    var app' := Housekeeping(app, ios, destLoad, cdsOk, filterLoad);
    forall i | 0 <= i < DEST_FILES
      ensures var s, s', limit := app.core.slots[i], app'.core.slots[i], app.dest.value[i].maxAge;
              (s'.handle.Some? <==> Survives(s, limit)) && (s'.handle.Some? ==> s'.age == Older(s).age < limit)
      ensures app'.dest.value[i].maxAge == LimitAfter(app.dest.value, destLoad, i)
    {
      AgeAllExactly(app.core, app.dest.value, ios, DEST_FILES, i);
    }
  }

  // ----- Restart

  /** The CDS area was only ever written by DS, and survives with what its last good copy put there. */
  ghost predicate CdsKept(core: Core, io: CdsIo) {
    io.Existing? ==>
      && |io.counts| == DEST_FILES && io.enabled < 256
      && (forall i | 0 <= i < DEST_FILES :: io.counts[i] <= MAX_SEQUENCE_COUNT)
      && (|core.cds.counts| == DEST_FILES ==> io.counts == core.cds.counts && io.enabled == core.cds.enabled)
  }

  lemma AfterResetIs(i: nat, s: Slot)
    requires SlotInv(i, s)
    ensures SlotInv(i, AfterReset(s)) && Stored(AfterReset(s)) == Stored(s) && AfterReset(s).handle.None?
  {
    if s.handle.Some? {
      OpenIsClosable(i, s);
      var f := DiskFile(s.name, s.data, s.packets, s.header, s.life);
      PacketsAppend(s.log, f);
      assert AfterReset(s).log == s.log + [f];
      assert Stored(AfterReset(s)) == Packets(s.log + [f]) + [];
    }
  }

  lemma RestoreSlotIs(i: nat, s: Slot, count: nat)
    requires SlotInv(i, s) && s.handle.None? && count <= MAX_SEQUENCE_COUNT
    ensures SlotInv(i, s.(count := count)) && Stored(s.(count := count)) == Stored(s)
  {
  }

  /** Nothing open, and the files and the numbering's history as they were before the reset. */
  ghost predicate Rebooted(core: Core, before: Slots) {
    && CoreInv(core) && core.os.open == {}
    && forall i | 0 <= i < DEST_FILES ::
         core.slots[i].handle.None? && core.slots[i].made == before[i].made && Stored(core.slots[i]) == Stored(before[i])
  }

  lemma ResetSlotsAre(core: Core)
    requires AllSlots(core.slots)
    ensures Rebooted(Zeroed(core).core, core.slots)
  {
    forall i | 0 <= i < DEST_FILES
      ensures var s := ResetSlots(core.slots)[i];
              SlotInv(i, s) && s.handle.None? && s.made == core.slots[i].made && Stored(s) == Stored(core.slots[i])
    {
      AfterResetIs(i, core.slots[i]);
    }
  }

  lemma CreateCdsKeeps(core: Core, io: CdsIo, before: Slots)
    requires Rebooted(core, before)
    requires io.Existing? ==> |io.counts| == DEST_FILES && io.enabled < 256
    requires io.Existing? ==> forall i | 0 <= i < DEST_FILES :: io.counts[i] <= MAX_SEQUENCE_COUNT
    ensures Rebooted(CreateCds(core, io), before)
  {
    if io.Existing? && io.restored {
      forall i | 0 <= i < DEST_FILES
        ensures var s := RestoreSlots(core.slots, io.counts)[i];
                SlotInv(i, s) && s.handle.None? && s.made == before[i].made && Stored(s) == Stored(before[i])
      {
        RestoreSlotIs(i, core.slots[i], io.counts[i]);
      }
      assert Counts(RestoreSlots(core.slots, io.counts)) == io.counts;
    }
  }

  lemma LoadRebooted(core: Core, t: DestTable, before: Slots)
    requires Rebooted(core, before) && VerifyDestTable(t) && !core.cds.good
    ensures Rebooted(UpdateCds(core.(slots := LoadSlots(core.slots, t)), true), before) && TableFits(t)
  {
    LoadKeeps(core, t, true);
  }

  lemma RestartKeeps(app: App, destLoad: Option<DestTable>, filterLoad: Option<FilterTable>, io: CdsIo)
    requires AppInv(app) && CdsKept(app.core, io)
    ensures AppInv(Restart(app, destLoad, filterLoad, io))
    ensures SameFiles(app.core.slots, Restart(app, destLoad, filterLoad, io).core.slots)
  {
    ResetSlotsAre(app.core);
    var zeroed := Zeroed(app.core);
    var withDest := ManageDest(zeroed, destLoad, true);
    if destLoad.Some? && VerifyDestTable(destLoad.value) {
      LoadRebooted(zeroed.core, destLoad.value, app.core.slots);
    }
    ManageFilterKeeps(withDest, filterLoad);
    CreateCdsKeeps(withDest.core, io, app.core.slots);
  }
}
