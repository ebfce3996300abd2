/** Under which conditions every packet that DS stored is on disk: over whole runs, read back from the file system. */
module AppKept {
  import opened HashChains
  import opened HashIndex
  import opened FilterAlgorithm
  import opened FileName
  import opened FileFormat
  import opened FileSystem
  import opened DestFile
  import opened DestFileProofs
  import opened DestDisk
  import opened DestKept
  import opened App
  import opened AppCore
  import opened AppSteps
  import opened AppRuns
  import opened AppNames
  import opened AppDisk

  // ----- What a caller can check

  predicate SameNames(e: Entry, e': Entry) {
    e'.parts == e.parts && e'.nameType == e.nameType && e'.movename == e.movename
  }

  /** No two files can ever get the same name: not two numbers of one destination, nor files of two destinations,
      neither when they are created nor when they are moved. */
  ghost predicate NoClash(t: DestTable) {
    && (forall i | 0 <= i < DEST_FILES :: CountNamed(t[i]) && OwnNamesDiffer(t[i]))
    && (forall i, j | 0 <= i < DEST_FILES && 0 <= j < DEST_FILES && i != j :: NamesApart(t[i], t[j]))
  }

  ghost predicate NamesApart(e: Entry, e': Entry) {
    forall m: nat, n: nat, name: string | m <= MAX_SEQUENCE_COUNT && n <= MAX_SEQUENCE_COUNT ::
      !(HasName(e, m, name) && HasName(e', n, name))
  }

  /** The loaded table, if any, names files as `t` does. */
  predicate NamesAre(dest: Option<DestTable>, t: DestTable) {
    dest.Some? ==> forall i | 0 <= i < DEST_FILES :: SameNames(t[i], dest.value[i])
  }

  /** The count is not lowered, and not touched while a file is open. */
  predicate SteadyCount(s: Slot, s': Slot) {
    s'.count >= s.count && (s'.handle.Some? ==> s'.count == s.count)
  }

  predicate SteadyCounts(slots: Slots, slots': Slots) {
    forall i | 0 <= i < DEST_FILES :: SteadyCount(slots[i], slots'[i])
  }

  predicate NoRollovers(slots: Slots, slots': Slots) {
    forall i | 0 <= i < DEST_FILES :: NoRollover(slots[i], slots'[i])
  }

  /** One input keeps the names of `t` in use, lowers no count by command, table load or reset, and makes none roll
      over. */
  predicate Steady(app: App, input: Input, mid: App, app': App, t: DestTable) {
    && NamesAre(app.dest, t) && NamesAre(mid.dest, t)
    && if input.Message? then
         SteadyCounts(app.core.slots, mid.core.slots) && NoRollovers(mid.core.slots, app'.core.slots)
       else SteadyCounts(app.core.slots, app'.core.slots)
  }

  // ----- The invariant

  ghost predicate AllFilesKept(slots: Slots, ops: seq<Op>, t: DestTable) {
    forall i | 0 <= i < DEST_FILES :: FilesKept(t[i], slots[i], ops)
  }

  ghost predicate CountsFit(slots: Slots) {
    forall i | 0 <= i < DEST_FILES :: slots[i].count <= MAX_SEQUENCE_COUNT
  }

  lemma CoreCountsFit(core: Core)
    requires CoreInv(core)
    ensures CountsFit(core.slots)
  {
    forall i | 0 <= i < DEST_FILES ensures core.slots[i].count <= MAX_SEQUENCE_COUNT {
      HeldBy(core, i);
    }
  }

  /** A step that touches names of `e` only, from number `low` on, leaves a file under a name of `e'` alone. */
  lemma OtherNameKept(e: Entry, low: nat, e': Entry, m: nat, ops: seq<Op>, ops': seq<Op>, name: string, life: nat)
    requires KeepsBelow(e, low, ops, ops') && NamesApart(e, e') && HasName(e', m, name) && m <= MAX_SEQUENCE_COUNT
    requires Stands(Replay(ops), name, life)
    ensures Stands(Replay(ops'), name, life)
  {
    hide HasName, Replay, Stands;
    assert Clear(e, low, name);
  }

  /** A destination that takes no part in the step of the destination with entry `e`. */
  lemma BystanderKept(e: Entry, w: World, w': World, e': Entry, s: Slot)
    requires KeptStep(e, w, w') && NamesApart(e, e') && FilesKept(e', s, w.os.ops) && s.count <= MAX_SEQUENCE_COUNT
    ensures FilesKept(e', s, w'.os.ops)
  {
    hide HasName, Replay, Stands, NamesApart, KeepsBelow;
    var low, ops, ops' := First(w.s), w.os.ops, w'.os.ops;
    if s.handle.Some? {
      OpenHasName(e', s.count - 1, s, ops);
      OtherNameKept(e, low, e', s.count - 1, ops, ops', s.name, s.life);
    }
    forall k | 0 <= k < |s.log| && s.log[k].packets != [] ensures FileKept(e', First(s), s.log[k], ops') {
      assert FileKept(e', First(s), s.log[k], ops);
      var m: nat :| m < First(s) && ClosedAs(e', m, s.log[k], ops);
      OtherNameKept(e, low, e', m, ops, ops', s.log[k].name, s.log[k].life);
      assert ClosedAs(e', m, s.log[k], ops');
    }
  }

  lemma OpenHasName(e: Entry, m: nat, s: Slot, ops: seq<Op>)
    requires OpenAs(e, m, s, ops)
    ensures HasName(e, m, s.name)
  {
  }

  /** The destination itself. */
  lemma OwnFilesKept(e: Entry, w: World, w': World)
    requires KeptStep(e, w, w') && OwnNamesDiffer(e) && FilesKept(e, w.s, w.os.ops)
    ensures FilesKept(e, w'.s, w'.os.ops)
  {
    hide HasName, Replay, Stands, OpenAs;
    forall k | 0 <= k < |w'.s.log| && w'.s.log[k].packets != []
      ensures FileKept(e, First(w'.s), w'.s.log[k], w'.os.ops)
    {
      var f := w'.s.log[k];
      if k < |w.s.log| {
        assert w.s.log[k] == f;
        var m: nat :| m < First(w.s) && ClosedAs(e, m, f, w.os.ops);
        assert Clear(e, First(w.s), f.name);
        assert ClosedAs(e, m, f, w'.os.ops);
      } else {
        var m: nat :| First(w.s) <= m < First(w'.s) && ClosedAs(e, m, f, w'.os.ops);
      }
    }
  }

  lemma PutKept(core: Core, t: DestTable, i: nat, w': World, cdsOk: bool)
    requires NoClash(t) && AllFilesKept(core.slots, core.os.ops, t) && CountsFit(core.slots) && i < DEST_FILES
    requires KeptStep(t[i], At(core, i), w')
    ensures var core' := Put(core, i, w', cdsOk); AllFilesKept(core'.slots, core'.os.ops, t)
  {
    var core' := Put(core, i, w', cdsOk);
    assert core'.slots == core.slots[i := w'.s] && core'.os == w'.os;
    forall j | 0 <= j < DEST_FILES ensures FilesKept(t[j], core'.slots[j], core'.os.ops) {
      hide FilesKept, KeptStep, NamesApart, OwnNamesDiffer, AllFilesKept;
      assert FilesKept(t[j], core.slots[j], core.os.ops) by { OneOf(core.slots, core.os.ops, t, j); }
      if j == i {
        OwnFilesKept(t[i], At(core, i), w');
      } else {
        BystanderKept(t[i], At(core, i), w', t[j], core.slots[j]);
      }
    }
  }

  lemma OneOf(slots: Slots, ops: seq<Op>, t: DestTable, i: nat)
    requires AllFilesKept(slots, ops, t) && i < DEST_FILES
    ensures FilesKept(t[i], slots[i], ops)
    ensures slots[i].handle.Some? ==> slots[i].count > 0 && OpenAs(t[i], slots[i].count - 1, slots[i], ops)
  {
  }

  lemma SameNamesKept(e: Entry, e': Entry, w: World, w': World)
    requires SameNames(e, e') && KeptStep(e', w, w')
    ensures KeptStep(e, w, w')
  {
    hide Replay, Stands, MoveTarget, ExactName, Digits, CStr;
    assert forall m: nat, name: string :: HasName(e, m, name) == HasName(e', m, name);
    assert forall low: nat, name: string :: Clear(e, low, name) == Clear(e', low, name);
    forall k | |w.s.log| <= k < |w'.s.log| && w'.s.log[k].packets != []
      ensures NewFileKept(e, First(w.s), First(w'.s), w'.s.log[k], w'.os.ops)
    {
      var m: nat :| First(w.s) <= m < First(w'.s) && ClosedAs(e', m, w'.s.log[k], w'.os.ops);
      assert ClosedAs(e, m, w'.s.log[k], w'.os.ops);
    }
  }

  lemma NamesTransfer(e: Entry, e': Entry)
    requires SameNames(e, e') && CountNamed(e) && OwnNamesDiffer(e)
    ensures CountNamed(e') && OwnNamesDiffer(e')
    ensures forall m: nat, s: Slot, ops: seq<Op> | OpenAs(e, m, s, ops) :: OpenAs(e', m, s, ops)
  {
    hide Replay, Stands, MoveTarget, ExactName, Digits, CStr;
    assert forall m: nat, name: string :: HasName(e, m, name) == HasName(e', m, name);
  }

  // ----- Loops over filters and destinations

  lemma {:induction false} StoreFilesKept(core: Core, dest: DestTable, filters: FilterList, p: Packet, ios: StoreIos,
                                          k: nat, t: DestTable)
    requires CoreInv(core) && TableFits(dest) && Framed(p.bytes) && k <= FILTERS && DiskInv(core)
    requires AllKept(core, dest, filters, p, ios, k)
    requires NoClash(t) && NamesAre(Some(dest), t) && AllFilesKept(core.slots, core.os.ops, t)
    requires NoRollovers(core.slots, StoreFilters(core, dest, filters, p, ios, k).0.slots)
    ensures var core' := StoreFilters(core, dest, filters, p, ios, k).0; AllFilesKept(core'.slots, core'.os.ops, t)
  {
    hide CoreInv, DiskInv, AllFilesKept, NoClash, NamesAre, SetupWrite, IsPacketFiltered;
    if k > 0 {
      var before := StoreFilters(core, dest, filters, p, ios, k - 1).0;
      var f := filters[k - 1];
      StoreFiltersKeeps(core, dest, filters, p, ios, k - 1);
      StoreDisk(core, dest, filters, p, ios, k - 1);
      RolloversBefore(core, dest, filters, p, ios, k);
      StoreFilesKept(core, dest, filters, p, ios, k - 1, t);
      KeptIsInv(core, before);
      if Selected(before.slots, f, p) {
        StoreOneKept(before, dest, f.fileIndex, p, ios[k - 1], t);
      }
    }
  }

  /** If nothing rolls over in `k` rounds, nothing does before the last one, nor in it. */
  lemma RolloversBefore(core: Core, dest: DestTable, filters: FilterList, p: Packet, ios: StoreIos, k: nat)
    requires 0 < k <= FILTERS && NoRollovers(core.slots, StoreFilters(core, dest, filters, p, ios, k).0.slots)
    ensures var before := StoreFilters(core, dest, filters, p, ios, k - 1).0;
            var after := StoreFilters(core, dest, filters, p, ios, k).0;
            NoRollovers(core.slots, before.slots) && NoRollovers(before.slots, after.slots)
  {
    hide SetupWrite, IsPacketFiltered;
    var before := StoreFilters(core, dest, filters, p, ios, k - 1).0;
    var after := StoreFilters(core, dest, filters, p, ios, k).0;
    forall i | 0 <= i < DEST_FILES
      ensures NoRollover(core.slots[i], before.slots[i]) && NoRollover(before.slots[i], after.slots[i])
    {
      StoreContinues(core, dest, filters, p, ios, k - 1, i);
      SetupWriteContinues(At(before, i), dest[i], i, p.bytes, ios[k - 1].setup);
      assert NoRollover(core.slots[i], after.slots[i]);
    }
  }

  lemma StoreOneKept(before: Core, dest: DestTable, i: nat, p: Packet, io: StoreIo, t: DestTable)
    requires CoreInv(before) && TableFits(dest) && i < DEST_FILES && Framed(p.bytes) && Kept(io, p, before.os)
    requires DiskInv(before) && NoClash(t) && NamesAre(Some(dest), t) && AllFilesKept(before.slots, before.os.ops, t)
    requires NoRollovers(before.slots, StoreOne(before, dest, i, p, io).slots)
    ensures var core' := StoreOne(before, dest, i, p, io); AllFilesKept(core'.slots, core'.os.ops, t)
  {
    hide SlotInv, SetupWrite, Sound, AllApart, AllFilesKept, OwnNamesDiffer, NamesApart, OpenAs, KeptStep,
        HandlesExact, Mirrored;
    HeldBy(before, i);
    var w := At(before, i);
    var w' := SetupWrite(w, dest[i], i, p.bytes, io.setup);
    NamesTransfer(t[i], dest[i]);
    OneOf(before.slots, before.os.ops, t, i);
    assert StoreOne(before, dest, i, p, io).slots[i] == w'.s;
    assert NoRollover(before.slots[i], w'.s);
    SetupWriteKept(i, w, dest[i], p.bytes, io.setup);
    SameNamesKept(t[i], dest[i], w, w');
    CoreCountsFit(before);
    PutKept(before, t, i, w', io.cdsOk);
  }

  /** Only counts and what has nothing to do with files may change. */
  ghost predicate OnlyCounts(core: Core, core': Core) {
    && Quiet(core, core')
    && forall i | 0 <= i < DEST_FILES :: core'.slots[i].name == core.slots[i].name
  }

  lemma OnlyCountsKept(core: Core, core': Core, t: DestTable)
    requires OnlyCounts(core, core') && SteadyCounts(core.slots, core'.slots) && AllFilesKept(core.slots, core.os.ops, t)
    ensures AllFilesKept(core'.slots, core'.os.ops, t)
  {
    hide OpenAs, ClosedAs;
    forall i | 0 <= i < DEST_FILES ensures FilesKept(t[i], core'.slots[i], core'.os.ops) {
      var s, s', e := core.slots[i], core'.slots[i], t[i];
      assert SteadyCount(s, s') && FilesKept(e, s, core.os.ops);
      if s.handle.Some? {
        OpenAsSame(e, s.count - 1, s, s', core.os.ops);
      }
      forall k | 0 <= k < |s'.log| && s'.log[k].packets != [] ensures FileKept(e, First(s'), s'.log[k], core'.os.ops) {
        assert FileKept(e, First(s), s.log[k], core.os.ops);
      }
    }
  }

  lemma CloseOneKept(core: Core, dest: Option<DestTable>, i: nat, io: CloseOutcome, t: DestTable)
    requires CoreInv(core) && DestInv(core, dest) && i < DEST_FILES && DiskInv(core)
    requires NoClash(t) && NamesAre(dest, t) && AllFilesKept(core.slots, core.os.ops, t)
    ensures var core' := CloseOne(core, dest, i, io); AllFilesKept(core'.slots, core'.os.ops, t)
  {
    hide SlotInv, CloseDest, UpdateHeader, Sound, AllApart, AllFilesKept, OwnNamesDiffer, NamesApart, OpenAs,
        KeptStep, HandlesExact;
    if core.slots[i].handle.Some? {
      CoreCountsFit(core);
      NamesTransfer(t[i], dest.value[i]);
      OneOf(core.slots, core.os.ops, t, i);
      var w := At(core, i);
      CloseRegularlyKept(i, w, dest.value[i], io.update, io.close);
      var w' := CloseDest(UpdateHeader(w, io.update), dest.value[i], io.close);
      SameNamesKept(t[i], dest.value[i], w, w');
      PutKept(core, t, i, w', true);
    }
  }

  lemma {:induction false} CloseAllKept(core: Core, dest: Option<DestTable>, ios: CloseIos, k: nat, t: DestTable)
    requires CoreInv(core) && DestInv(core, dest) && TimesOk(ios) && k <= DEST_FILES && DiskInv(core)
    requires NoClash(t) && NamesAre(dest, t) && AllFilesKept(core.slots, core.os.ops, t)
    ensures var core' := CloseAll(core, dest, ios, k); AllFilesKept(core'.slots, core'.os.ops, t)
  {
    hide CoreInv, DiskInv, AllFilesKept, NoClash, NamesAre, CloseOne, DestInv;
    if k > 0 {
      CloseAllKept(core, dest, ios, k - 1, t);
      CloseAllKeeps(core, dest, ios, k - 1);
      CloseAllDisk(core, dest, ios, k - 1);
      KeptIsInv(core, CloseAll(core, dest, ios, k - 1));
      CloseOneKept(CloseAll(core, dest, ios, k - 1), dest, k - 1, ios[k - 1], t);
    }
  }

  lemma AgeOneKept(core: Core, dest: DestTable, i: nat, io: CloseOutcome, t: DestTable)
    requires CoreInv(core) && i < DEST_FILES && DiskInv(core)
    requires NoClash(t) && NamesAre(Some(dest), t) && AllFilesKept(core.slots, core.os.ops, t)
    ensures var core' := Put(core, i, AgeTest(At(core, i), dest[i], io.update, io.close), true);
            AllFilesKept(core'.slots, core'.os.ops, t)
  {
    hide SlotInv, CloseDest, UpdateHeader, Sound, AllApart, AllFilesKept, OwnNamesDiffer, NamesApart, OpenAs,
        KeptStep, HandlesExact;
    var w := At(core, i);
    var w1, w' := w.(s := Older(w.s)), AgeTest(w, dest[i], io.update, io.close);
    OlderKept(core, i, t);
    if w.s.handle.Some? {
      CoreCountsFit(core);
      NamesTransfer(t[i], dest[i]);
      OneOf(core.slots, core.os.ops, t, i);
      OpenAsSame(dest[i], w.s.count - 1, w.s, w1.s, w.os.ops);
      assert Sound(w.s, w.os.ops);
      SoundAt(w.s, w1.s, w.os.ops);
      if w1.s.age >= dest[i].maxAge {
        CloseRegularlyKept(i, w1, dest[i], io.update, io.close);
        SameNamesKept(t[i], dest[i], w1, w');
        KeptFrom(t[i], w, w1, w');
        PutKept(core, t, i, w', true);
      }
    }
  }

  lemma OlderKept(core: Core, i: nat, t: DestTable)
    requires i < DEST_FILES && AllFilesKept(core.slots, core.os.ops, t)
    ensures var core' := Put(core, i, At(core, i).(s := Older(core.slots[i])), true);
            AllFilesKept(core'.slots, core'.os.ops, t)
    ensures Put(core, i, At(core, i), true) == core
  {
    var core' := Put(core, i, At(core, i).(s := Older(core.slots[i])), true);
    OnlyCountsKept(core, core', t);
  }

  lemma KeptFrom(e: Entry, w: World, w1: World, w': World)
    requires KeptStep(e, w1, w') && SameFile(w.s, w1.s) && w1.s.count == w.s.count && w1.os == w.os
    ensures KeptStep(e, w, w')
  {
  }

  lemma {:induction false} AgeKept(core: Core, dest: DestTable, ios: CloseIos, k: nat, t: DestTable)
    requires CoreInv(core) && TimesOk(ios) && k <= DEST_FILES && DiskInv(core)
    requires NoClash(t) && NamesAre(Some(dest), t) && AllFilesKept(core.slots, core.os.ops, t)
    ensures var core' := AgeAll(core, dest, ios, k); AllFilesKept(core'.slots, core'.os.ops, t)
  {
    hide CoreInv, DiskInv, AllFilesKept, NoClash, NamesAre, AgeTest, Put, At, Tested, DiskKept;
    if k > 0 {
      AgeKept(core, dest, ios, k - 1, t);
      AgeAllKeeps(core, dest, ios, k - 1);
      AgeDisk(core, dest, ios, k - 1);
      KeptIsInv(core, AgeAll(core, dest, ios, k - 1));
      AgeOneKept(AgeAll(core, dest, ios, k - 1), dest, k - 1, ios[k - 1], t);
    }
  }

  // ----- Inputs

  lemma StatusOnlyCounts(app: App, cmd: Command)
    requires cmd.SetAppState? || cmd.SetDestState? || cmd.SetDestCount?
    ensures OnlyCounts(app.core, Apply(app, cmd).core)
  {
    StatusQuiet(app, cmd);
  }

  lemma CommandFilesKept(app: App, cmd: Command, t: DestTable)
    requires AppInv(app) && CanApply(app, cmd) && CommandKept(cmd) && DiskInv(app.core)
    requires NoClash(t) && NamesAre(app.dest, t) && AllFilesKept(app.core.slots, app.core.os.ops, t)
    requires SteadyCounts(app.core.slots, Apply(app, cmd).core.slots)
    ensures var core' := Apply(app, cmd).core; AllFilesKept(core'.slots, core'.os.ops, t)
  {
    hide DiskInv, CoreInv, CloseOne, CloseAll, DestInv, TimesOk, NoClash, NamesAre, AllFilesKept, OnlyCounts,
        SteadyCounts;
    if cmd.SetFilterFile? || cmd.SetFilterType? || cmd.SetFilterParms? || cmd.AddMID? || cmd.RemoveMID? {
      FilterCommandKeeps(app, cmd);
    } else if cmd.CloseFile? && cmd.i < DEST_FILES {
      CloseOneKept(app.core, app.dest, cmd.i, cmd.io, t);
    } else if cmd.CloseAllFiles? {
      CloseAllKept(app.core, app.dest, cmd.ios, DEST_FILES, t);
    } else if cmd.SetAppState? || cmd.SetDestState? || cmd.SetDestCount? {
      StatusOnlyCounts(app, cmd);
      OnlyCountsKept(app.core, Apply(app, cmd).core, t);
    } else {
      EntryCommandKeeps(app, cmd);
    }
  }

  lemma LoadsOnlyCounts(app: App, destLoad: Option<DestTable>, cdsOk: bool, filterLoad: Option<FilterTable>)
    ensures OnlyCounts(app.core, ManageFilter(ManageDest(app, destLoad, cdsOk), filterLoad).core)
  {
    LoadsQuiet(app, destLoad, cdsOk, filterLoad);
  }

  lemma RatesOnlyCounts(core: Core, core': Core)
    requires OnlyCounts(core, core')
    ensures OnlyCounts(core, core'.(slots := Rates(core'.slots)))
  {
  }

  lemma HousekeepingKept(app: App, ios: CloseIos, destLoad: Option<DestTable>, cdsOk: bool,
                         filterLoad: Option<FilterTable>,
                         t: DestTable)
    requires AppInv(app) && TimesOk(ios) && DiskInv(app.core)
    requires NoClash(t) && NamesAre(app.dest, t) && AllFilesKept(app.core.slots, app.core.os.ops, t)
    requires SteadyCounts(app.core.slots, Housekeeping(app, ios, destLoad, cdsOk, filterLoad).core.slots)
    ensures var core' := Housekeeping(app, ios, destLoad, cdsOk, filterLoad).core;
            AllFilesKept(core'.slots, core'.os.ops, t)
  {
    hide DiskInv, CoreInv, AgeAll, TimesOk, DestInv, GoodFilters, IndexInv, Accounted, NoClash, AllFilesKept, OnlyCounts;
    var aged := if app.dest.Some? then app.(core := AgeAll(app.core, app.dest.value, ios, DEST_FILES)) else app;
    if app.dest.Some? {
      AgeKept(app.core, app.dest.value, ios, DEST_FILES, t);
    }
    var loaded := ManageFilter(ManageDest(aged, destLoad, cdsOk), filterLoad);
    LoadsOnlyCounts(aged, destLoad, cdsOk, filterLoad);
    RatesOnlyCounts(aged.core, loaded.core);
    var core' := loaded.core.(slots := Rates(loaded.core.slots));
    forall i | 0 <= i < DEST_FILES ensures SteadyCount(aged.core.slots[i], core'.slots[i]) {
      if app.dest.Some? {
        AgeNumbers(app.core, app.dest.value, ios, DEST_FILES, i);
      }
      assert SteadyCount(app.core.slots[i], core'.slots[i]);
    }
    OnlyCountsKept(aged.core, core', t);
  }

  lemma HandleKept(app: App, ev: Event, mid: App, t: DestTable)
    requires AppInv(app) && Handle(app, ev, mid) && DiskInv(app.core)
    requires (ev.HkRequest? ==> TimesOk(ev.closes)) && (ev.CommandMsg? ==> CommandKept(ev.cmd))
    requires NoClash(t) && NamesAre(app.dest, t) && AllFilesKept(app.core.slots, app.core.os.ops, t)
    requires SteadyCounts(app.core.slots, mid.core.slots)
    ensures AllFilesKept(mid.core.slots, mid.core.os.ops, t)
  {
    hide DiskInv, AppInv, Apply, Housekeeping, Build, NoClash, NamesAre, AllFilesKept, OnlyCounts, SteadyCounts;
    match ev
    case Data =>
    case CommandMsg(cmd) => CommandFilesKept(app, cmd, t);
    case HkRequest(wellFormed, closes, destLoad, cdsOk, filterLoad) =>
      if wellFormed {
        HousekeepingKept(app, closes, destLoad, cdsOk, filterLoad, t);
      }
    case Timeout(destLoad, cdsOk, filterLoad) =>
      LoadsOnlyCounts(app, destLoad, cdsOk, filterLoad);
      OnlyCountsKept(app.core, mid.core, t);
  }

  lemma OfferKept(mid: App, ev: Event, p: Packet, ios: StoreIos, app': App, t: DestTable)
    requires AppInv(mid) && Offer(mid, ev, p, ios, app') && StoreKept(mid, p, ios) && DiskInv(mid.core)
    requires NoClash(t) && NamesAre(mid.dest, t) && AllFilesKept(mid.core.slots, mid.core.os.ops, t)
    requires NoRollovers(mid.core.slots, app'.core.slots)
    ensures AllFilesKept(app'.core.slots, app'.core.os.ops, t)
  {
    hide DiskInv, CoreInv, StoreFilters, AllKept, SearchEnds, IndexInv, Accounted, GoodFilters, NoClash,
        AllFilesKept, NoRollovers;
    if Offered(mid, ev, p) && Reaches(mid, p) {
      StoreFilesKept(mid.core, mid.dest.value, FiltersFor(mid, p), p, ios, FILTERS, t);
    }
  }

  lemma ResetSlotKept(e: Entry, s: Slot, ops: seq<Op>, s': Slot)
    requires FilesKept(e, s, ops) && s'.handle.None? && s'.log == AfterReset(s).log && s'.count >= s.count
    ensures FilesKept(e, s', ops)
  {
    hide Replay, Stands, HasName, ExactName, Digits, CStr;
    forall k | 0 <= k < |s'.log| && s'.log[k].packets != [] ensures FileKept(e, First(s'), s'.log[k], ops) {
      if k < |s.log| {
        assert FileKept(e, First(s), s.log[k], ops);
      } else {
        OpenHasName(e, s.count - 1, s, ops);
        assert ClosedAs(e, s.count - 1, s'.log[k], ops);
      }
    }
  }

  lemma ResetKept(app: App, destLoad: Option<DestTable>, filterLoad: Option<FilterTable>, io: CdsIo, t: DestTable)
    requires AllFilesKept(app.core.slots, app.core.os.ops, t)
    requires SteadyCounts(app.core.slots, Restart(app, destLoad, filterLoad, io).core.slots)
    ensures var core' := Restart(app, destLoad, filterLoad, io).core; AllFilesKept(core'.slots, core'.os.ops, t)
  {
    var core' := Restart(app, destLoad, filterLoad, io).core;
    RestartSlots(app, destLoad, filterLoad, io);
    forall i | 0 <= i < DEST_FILES ensures FilesKept(t[i], core'.slots[i], core'.os.ops) {
      hide FilesKept, Restart, AfterReset;
      assert SteadyCount(app.core.slots[i], core'.slots[i]);
      ResetSlotKept(t[i], app.core.slots[i], app.core.os.ops, core'.slots[i]);
    }
  }

  lemma NextKept(app: App, input: Input, mid: App, app': App, t: DestTable)
    requires AppInv(app) && Next(app, input, mid, app') && InputKept(app, mid, input) && DiskInv(app.core)
    requires NoClash(t) && Steady(app, input, mid, app', t) && AllFilesKept(app.core.slots, app.core.os.ops, t)
    ensures AllFilesKept(app'.core.slots, app'.core.os.ops, t)
  {
    hide DiskInv, AppInv, Handle, Offer, Restart, StoreKept, CdsKept, NoClash, NamesAre, AllFilesKept,
         SteadyCounts, NoRollovers;
    match input
    case Message(ev, p, ios) =>
      HandleKept(app, ev, mid, t);
      HandleKeeps(app, ev, mid);
      HandleDisk(app, ev, mid);
      KeptIsInv(app.core, mid.core);
      OfferKept(mid, ev, p, ios, app', t);
    case Reset(destLoad, filterLoad, io) => ResetKept(app, destLoad, filterLoad, io, t);
  }

  // ----- Runs

  ghost predicate SteadyRun(apps: seq<App>, mids: seq<App>, inputs: seq<Input>, k: nat, t: DestTable)
    requires k <= |inputs| && |apps| == |inputs| + 1 && |mids| == |inputs|
  {
    forall n | 0 <= n < k :: Steady(apps[n], inputs[n], mids[n], apps[n + 1], t)
  }

  lemma PowerOffKept(t: DestTable)
    ensures AllFilesKept(PowerOff().core.slots, PowerOff().core.os.ops, t)
  {
  }

  /** In every steady run with names that cannot clash: each file that holds packets stands on disk under the name
      that DS
      gave it last. */
  lemma {:induction false} RunFilesKept(apps: seq<App>, mids: seq<App>, inputs: seq<Input>, k: nat, t: DestTable)
    requires GoodRun(apps, mids, inputs) && k <= |inputs| && NoClash(t) && SteadyRun(apps, mids, inputs, k, t)
    ensures AllFilesKept(apps[k].core.slots, apps[k].core.os.ops, t)
  {
    hide AllFilesKept, Next, InputKept, Steady, NoClash;
    if k == 0 {
      PowerOffKept(t);
    } else {
      RunFilesKept(apps, mids, inputs, k - 1, t);
      RunKeeps(apps, mids, inputs, k - 1);
      RunDisk(apps, mids, inputs, k - 1);
      NextKept(apps[k - 1], inputs[k - 1], mids[k - 1], apps[k], t);
    }
  }

  /** What reading the listed files from disk recovers, those without packets left out. */
  function ReadLog(disk: Disk, log: seq<DiskFile>): seq<Bytes> {
    if log == [] then []
    else ReadLog(disk, log[..|log| - 1]) +
         var f := log[|log| - 1]; if f.packets == [] then [] else Recovered(Read(disk, f.name))
  }

  /** What a reader finds on disk in the files of one destination, in the order of their creation, the open one last. */
  function ReadAll(disk: Disk, s: Slot): seq<Bytes> {
    ReadLog(disk, s.log) + if s.handle.Some? then Recovered(Read(disk, s.name)) else []
  }

  lemma {:induction false} ReadLogIs(ops: seq<Op>, i: nat, e: Entry, bound: int, log: seq<DiskFile>)
    requires LogKnown(ops, log) && AllArchived(i, log)
    requires forall k | 0 <= k < |log| && log[k].packets != [] :: FileKept(e, bound, log[k], ops)
    ensures ReadLog(Replay(ops), log) == Packets(log)
  {
    hide HasName, Archived, Replay;
    if log != [] {
      var init, f := log[..|log| - 1], log[|log| - 1];
      ReadLogIs(ops, i, e, bound, init);
      if f.packets != [] {
        assert FileKept(e, bound, f, ops);
        assert Knows(ops, f.life, f.data);
        StandingRead(ops, f.name, f.life, f.data);
        assert Archived(i, f);
        ArchivedReadsBack(i, f);
      }
    }
  }

  lemma StandingRead(ops: seq<Op>, name: string, life: nat, data: Bytes)
    requires Knows(ops, life, data) && Stands(Replay(ops), name, life)
    ensures Read(Replay(ops), name) == data
  {
  }

  lemma ReadAllIs(core: Core, i: nat, e: Entry)
    requires CoreInv(core) && DiskInv(core) && i < DEST_FILES && FilesKept(e, core.slots[i], core.os.ops)
    ensures ReadAll(DiskOf(core), core.slots[i]) == Stored(core.slots[i])
  {
    hide HandlesExact, Mirrored, AllApart, Replay, Image, AllFramed, HasName;
    var s, ops := core.slots[i], core.os.ops;
    HeldBy(core, i);
    assert Sound(s, ops);
    ReadLogIs(ops, i, e, First(s), s.log);
    if s.handle.Some? {
      StandingRead(ops, s.name, s.life, s.data);
      OpenIsClosable(i, s);
      ArchivedReadsBack(i, DiskFile(s.name, s.data, s.packets, s.header, s.life));
    }
  }

  /** In every steady run with names that cannot clash, failures of OS calls included: reading a destination's files
      from disk recovers exactly the packets whose writes went through. */
  lemma {:induction false} FilesReadBack(apps: seq<App>, mids: seq<App>, inputs: seq<Input>, k: nat, t: DestTable)
    requires GoodRun(apps, mids, inputs) && k <= |inputs| && NoClash(t) && SteadyRun(apps, mids, inputs, k, t)
    ensures forall i | 0 <= i < DEST_FILES ::
              ReadAll(DiskOf(apps[k].core), apps[k].core.slots[i]) == Gains(mids, inputs, k, i)
  {
    hide CoreInv, DiskInv, NoClash, Steady, SteadyRun, FilesKept;
    RunFilesKept(apps, mids, inputs, k, t);
    RunKeeps(apps, mids, inputs, k);
    RunDisk(apps, mids, inputs, k);
    forall i | 0 <= i < DEST_FILES
      ensures ReadAll(DiskOf(apps[k].core), apps[k].core.slots[i]) == Gains(mids, inputs, k, i)
    {
      OneOf(apps[k].core.slots, apps[k].core.os.ops, t, i);
      ReadAllIs(apps[k].core, i, t[i]);
    }
  }

  /** If moreover no write fails: the files on disk hold exactly the packets that passed the destination's filters
      while it was enabled, in order of arrival and once per matching filter. No rotation by size, age or command,
      and no reset, loses, repeats or reorders a packet. */
  lemma {:induction false} WholeRunStorage(apps: seq<App>, mids: seq<App>, inputs: seq<Input>, k: nat, t: DestTable)
    requires GoodRun(apps, mids, inputs) && k <= |inputs| && NoClash(t) && SteadyRun(apps, mids, inputs, k, t)
    requires forall j | 0 <= j < k :: WritesSucceed(mids[j], inputs[j])
    ensures forall i | 0 <= i < DEST_FILES ::
              ReadAll(DiskOf(apps[k].core), apps[k].core.slots[i]) == Promises(mids, inputs, k, i)
  {
    FilesReadBack(apps, mids, inputs, k, t);
    forall i | 0 <= i < DEST_FILES
      ensures ReadAll(DiskOf(apps[k].core), apps[k].core.slots[i]) == Promises(mids, inputs, k, i)
    {
      GainsArePromises(apps, mids, inputs, k, i);
    }
  }
}
