/** The file system over whole runs: which of the files that DS closed are still there, and what they hold. */
module AppDisk {
  import opened HashChains
  import opened HashIndex
  import opened FilterAlgorithm
  import opened FileName
  import opened FileFormat
  import opened FileSystem
  import opened DestFile
  import opened DestFileProofs
  import opened DestDisk
  import opened App
  import opened AppCore
  import opened AppSteps
  import opened AppRuns

  // ----- The invariant

  /** No file belongs to two destinations. */
  ghost predicate Apart(s: Slot, s': Slot) {
    forall life: nat :: !(IsLife(s, life) && IsLife(s', life))
  }

  ghost predicate AllSound(slots: Slots, ops: seq<Op>) {
    forall i | 0 <= i < DEST_FILES :: Sound(slots[i], ops)
  }

  ghost predicate AllApart(slots: Slots) {
    forall i, j | 0 <= i < j < DEST_FILES :: Apart(slots[i], slots[j])
  }

  ghost predicate DiskInv(core: Core) {
    AllSound(core.slots, core.os.ops) && AllApart(core.slots)
  }

  /** Calls and closed files are only added. */
  ghost predicate Grows(core: Core, core': Core) {
    core.os.ops <= core'.os.ops && forall i | 0 <= i < DEST_FILES :: core.slots[i].log <= core'.slots[i].log
  }

  ghost predicate DiskKept(core: Core, core': Core) {
    Grows(core, core') && DiskInv(core')
  }

  lemma DiskKeptOn(core: Core, core1: Core, core2: Core)
    requires DiskKept(core, core1) && DiskKept(core1, core2)
    ensures DiskKept(core, core2)
  {
    hide AllSound, AllApart;
    forall i | 0 <= i < DEST_FILES ensures core.slots[i].log <= core2.slots[i].log {
      assert core.slots[i].log <= core1.slots[i].log <= core2.slots[i].log;
    }
  }

  /** A destination that takes no part in a step of destination `i`. */
  lemma BystanderSound(core: Core, i: nat, w': World, j: nat)
    requires HandlesExact(core.slots, core.os) && DiskInv(core) && i < DEST_FILES && j < DEST_FILES && i != j
    requires DiskStep(At(core, i), w')
    ensures Sound(core.slots[j], w'.os.ops)
  {
    var s, ops, ops' := core.slots[j], core.os.ops, w'.os.ops;
    assert if i < j then Apart(core.slots[i], core.slots[j]) else Apart(core.slots[j], core.slots[i]);
    forall life: nat | IsLife(s, life) && life < |ops| ensures Spares(ops, ops', life) {
      assert !IsLife(core.slots[i], life);
    }
    forall k | 0 <= k < |s.log| ensures Knows(ops', s.log[k].life, s.log[k].data) {
      assert Knows(ops, s.log[k].life, s.log[k].data) && IsLife(s, s.log[k].life);
      assert Spares(ops, ops', s.log[k].life);
    }
    if s.handle.Some? {
      assert IsLife(s, s.life) && Knows(ops, s.life, s.data);
      assert core.slots[i].handle != s.handle;
      assert SameFd(ops, ops', s.handle.value);
    }
  }

  lemma LivesAreOld(s: Slot, ops: seq<Op>, life: nat)
    requires Sound(s, ops) && IsLife(s, life)
    ensures life < |ops|
  {
    if InLog(s.log, life) {
      var k :| 0 <= k < |s.log| && s.log[k].life == life;
      assert Knows(ops, s.log[k].life, s.log[k].data);
    }
  }

  lemma BystanderApart(core: Core, i: nat, w': World, j: nat)
    requires DiskInv(core) && i < DEST_FILES && j < DEST_FILES && i != j && DiskStep(At(core, i), w')
    ensures Apart(w'.s, core.slots[j]) && Apart(core.slots[j], w'.s)
  {
    assert if i < j then Apart(core.slots[i], core.slots[j]) else Apart(core.slots[j], core.slots[i]);
    forall life: nat | IsLife(w'.s, life) ensures !IsLife(core.slots[j], life) {
      if IsLife(core.slots[j], life) {
        LivesAreOld(core.slots[j], core.os.ops, life);
      }
    }
  }

  lemma PutDisk(core: Core, i: nat, w': World, cdsOk: bool)
    requires HandlesExact(core.slots, core.os) && DiskInv(core) && i < DEST_FILES && DiskStep(At(core, i), w')
    ensures DiskKept(core, Put(core, i, w', cdsOk))
  {
    var core' := Put(core, i, w', cdsOk);
    assert core'.slots == core.slots[i := w'.s] && core'.os == w'.os;
    forall j | 0 <= j < DEST_FILES ensures Sound(core'.slots[j], core'.os.ops) {
      hide Sound, HandlesExact, AllSound, AllApart, DiskStep;
      if j == i {
        StepIsSound(At(core, i), w');
      } else {
        BystanderSound(core, i, w', j);
      }
    }
    forall j, k | 0 <= j < k < DEST_FILES ensures Apart(core'.slots[j], core'.slots[k]) {
      hide Apart, Sound, HandlesExact, AllSound, DiskStep;
      if j == i {
        BystanderApart(core, i, w', k);
      } else if k == i {
        BystanderApart(core, i, w', j);
      }
    }
    assert core.slots[i].log <= w'.s.log;
  }

  /** Changes that leave all files, open or closed, and the calls alone. */
  ghost predicate Quiet(core: Core, core': Core) {
    && core'.os.ops == core.os.ops
    && forall i | 0 <= i < DEST_FILES ::
         SameFile(core.slots[i], core'.slots[i]) && core'.slots[i].data == core.slots[i].data
  }

  lemma QuietDisk(core: Core, core': Core)
    requires Quiet(core, core') && DiskInv(core)
    ensures DiskKept(core, core')
  {
    forall i | 0 <= i < DEST_FILES ensures Sound(core'.slots[i], core'.os.ops) {
      SoundAt(core.slots[i], core'.slots[i], core.os.ops);
    }
    forall i, j | 0 <= i < j < DEST_FILES ensures Apart(core'.slots[i], core'.slots[j]) {
      forall life: nat ensures !(IsLife(core'.slots[i], life) && IsLife(core'.slots[j], life)) {
        SameFileLives(core.slots[i], core'.slots[i], life);
        SameFileLives(core.slots[j], core'.slots[j], life);
        assert Apart(core.slots[i], core.slots[j]);
      }
    }
  }

  // ----- Loops over filters and destinations

  lemma {:induction false} StoreDisk(core: Core, dest: DestTable, filters: FilterList, p: Packet, ios: StoreIos, k: nat)
    requires CoreInv(core) && TableFits(dest) && Framed(p.bytes) && k <= FILTERS && DiskInv(core)
    requires AllKept(core, dest, filters, p, ios, k)
    ensures DiskKept(core, StoreFilters(core, dest, filters, p, ios, k).0)
  {
    hide DiskInv, CoreInv, DiskKept, SlotInv, SetupWrite, DiskStep, IsPacketFiltered, HandlesExact;
    if k == 0 {
      QuietDisk(core, core);
    } else {
      StoreDisk(core, dest, filters, p, ios, k - 1);
      StoreFiltersKeeps(core, dest, filters, p, ios, k - 1);
      var before, f := StoreFilters(core, dest, filters, p, ios, k - 1).0, filters[k - 1];
      if Selected(before.slots, f, p) {
        StoreOneDisk(core, before, dest, f.fileIndex, p, ios[k - 1]);
      }
    }
  }

  lemma StoreOneDisk(core: Core, before: Core, dest: DestTable, i: nat, p: Packet, io: StoreIo)
    requires CoreInv(before) && TableFits(dest) && i < DEST_FILES && Framed(p.bytes) && Kept(io, p, before.os)
    requires DiskKept(core, before)
    ensures DiskKept(core, StoreOne(before, dest, i, p, io))
  {
    hide SlotInv, SetupWrite, DiskStep, Sound, AllApart;
    HeldBy(before, i);
    SetupWriteStep(i, At(before, i), dest[i], p.bytes, io.setup);
    PutDisk(before, i, SetupWrite(At(before, i), dest[i], i, p.bytes, io.setup), io.cdsOk);
    DiskKeptOn(core, before, StoreOne(before, dest, i, p, io));
  }

  lemma {:induction false} AgeDisk(core: Core, dest: DestTable, ios: CloseIos, k: nat)
    requires CoreInv(core) && TimesOk(ios) && k <= DEST_FILES && DiskInv(core)
    ensures DiskKept(core, AgeAll(core, dest, ios, k))
  {
    hide DiskInv, CoreInv, DiskKept, SlotInv, AgeTest, DiskStep, HandlesExact;
    if k == 0 {
      QuietDisk(core, core);
    } else {
      AgeDisk(core, dest, ios, k - 1);
      AgeAllKeeps(core, dest, ios, k - 1);
      AgeOneDisk(core, AgeAll(core, dest, ios, k - 1), dest, ios[k - 1], k - 1);
    }
  }

  lemma AgeOneDisk(core: Core, before: Core, dest: DestTable, io: CloseOutcome, i: nat)
    requires CoreInv(before) && i < DEST_FILES && |io.update.time| == TIME_SIZE && DiskKept(core, before)
    ensures DiskKept(core, Put(before, i, AgeTest(At(before, i), dest[i], io.update, io.close), true))
  {
    hide SlotInv, AgeTest, DiskStep, Sound, AllApart;
    HeldBy(before, i);
    AgeTestStep(i, At(before, i), dest[i], io.update, io.close);
    PutDisk(before, i, AgeTest(At(before, i), dest[i], io.update, io.close), true);
    DiskKeptOn(core, before, Put(before, i, AgeTest(At(before, i), dest[i], io.update, io.close), true));
  }

  lemma CloseOneDisk(core: Core, before: Core, dest: Option<DestTable>, i: nat, io: CloseOutcome)
    requires CoreInv(before) && DestInv(before, dest) && i < DEST_FILES && |io.update.time| == TIME_SIZE
    requires DiskKept(core, before)
    ensures DiskKept(core, CloseOne(before, dest, i, io))
  {
    hide SlotInv, CloseDest, UpdateHeader, DiskStep, Sound, AllApart;
    if before.slots[i].handle.Some? {
      HeldBy(before, i);
      CloseRegularlyStep(i, At(before, i), dest.value[i], io.update, io.close);
      PutDisk(before, i, CloseIfOpen(At(before, i), dest.value[i], io.update, io.close), true);
      DiskKeptOn(core, before, CloseOne(before, dest, i, io));
    }
  }

  lemma {:induction false} CloseAllDisk(core: Core, dest: Option<DestTable>, ios: CloseIos, k: nat)
    requires CoreInv(core) && DestInv(core, dest) && TimesOk(ios) && k <= DEST_FILES && DiskInv(core)
    ensures DiskKept(core, CloseAll(core, dest, ios, k))
  {
    hide DiskInv, CoreInv, DiskKept, CloseOne, DestInv;
    if k == 0 {
      QuietDisk(core, core);
    } else {
      CloseAllDisk(core, dest, ios, k - 1);
      CloseAllKeeps(core, dest, ios, k - 1);
      CloseOneDisk(core, CloseAll(core, dest, ios, k - 1), dest, k - 1, ios[k - 1]);
    }
  }

  // ----- Inputs

  lemma CommandDisk(app: App, cmd: Command)
    requires AppInv(app) && CanApply(app, cmd) && CommandKept(cmd) && DiskInv(app.core)
    ensures DiskKept(app.core, Apply(app, cmd).core)
  {
    hide DiskInv, CoreInv, DiskKept, CloseOne, CloseAll, DestInv, TimesOk;
    QuietDisk(app.core, app.core);
    if cmd.SetFilterFile? || cmd.SetFilterType? || cmd.SetFilterParms? || cmd.AddMID? || cmd.RemoveMID? {
      FilterCommandKeeps(app, cmd);
    } else if cmd.CloseFile? && cmd.i < DEST_FILES {
      CloseOneDisk(app.core, app.core, app.dest, cmd.i, cmd.io);
    } else if cmd.CloseAllFiles? {
      CloseAllDisk(app.core, app.dest, cmd.ios, DEST_FILES);
    } else if cmd.SetAppState? || cmd.SetDestState? || cmd.SetDestCount? {
      StatusQuiet(app, cmd);
      QuietDisk(app.core, Apply(app, cmd).core);
    } else {
      EntryCommandKeeps(app, cmd);
    }
  }

  lemma StatusQuiet(app: App, cmd: Command)
    requires cmd.SetAppState? || cmd.SetDestState? || cmd.SetDestCount?
    ensures Quiet(app.core, Apply(app, cmd).core)
  {
    hide VerifyState;
  }

  lemma LoadsQuiet(app: App, destLoad: Option<DestTable>, cdsOk: bool, filterLoad: Option<FilterTable>)
    ensures Quiet(app.core, ManageFilter(ManageDest(app, destLoad, cdsOk), filterLoad).core)
  {
  }

  lemma HousekeepingDisk(app: App, ios: CloseIos, destLoad: Option<DestTable>, cdsOk: bool,
                         filterLoad: Option<FilterTable>)
    requires AppInv(app) && TimesOk(ios) && DiskInv(app.core)
    ensures DiskKept(app.core, Housekeeping(app, ios, destLoad, cdsOk, filterLoad).core)
  {
    hide DiskInv, DiskKept, CoreInv, AgeAll, Quiet, TimesOk, DestInv, GoodFilters, IndexInv, Accounted;
    var aged := if app.dest.Some? then app.(core := AgeAll(app.core, app.dest.value, ios, DEST_FILES)) else app;
    UnchangedDisk(app.core);
    if app.dest.Some? {
      AgeDisk(app.core, app.dest.value, ios, DEST_FILES);
    }
    var loaded := ManageFilter(ManageDest(aged, destLoad, cdsOk), filterLoad);
    LoadsQuiet(aged, destLoad, cdsOk, filterLoad);
    KeptIsInv(app.core, aged.core);
    QuietDisk(aged.core, loaded.core);
    KeptIsInv(aged.core, loaded.core);
    RatesQuiet(loaded.core);
    QuietDisk(loaded.core, loaded.core.(slots := Rates(loaded.core.slots)));
    DiskKeptOn(app.core, aged.core, loaded.core);
    DiskKeptOn(app.core, loaded.core, loaded.core.(slots := Rates(loaded.core.slots)));
  }

  lemma UnchangedDisk(core: Core)
    requires DiskInv(core)
    ensures DiskKept(core, core)
  {
  }

  lemma KeptIsInv(core: Core, core': Core)
    requires DiskKept(core, core')
    ensures DiskInv(core')
  {
  }

  lemma RatesQuiet(core: Core)
    ensures Quiet(core, core.(slots := Rates(core.slots)))
  {
  }

  lemma HandleDisk(app: App, ev: Event, mid: App)
    requires AppInv(app) && Handle(app, ev, mid) && DiskInv(app.core)
    requires (ev.HkRequest? ==> TimesOk(ev.closes)) && (ev.CommandMsg? ==> CommandKept(ev.cmd))
    ensures DiskKept(app.core, mid.core)
  {
    hide DiskInv, DiskKept, AppInv, Apply, Housekeeping, Build, Quiet;
    UnchangedDisk(app.core);
    match ev
    case Data =>
    case CommandMsg(cmd) => CommandDisk(app, cmd);
    case HkRequest(wellFormed, closes, destLoad, cdsOk, filterLoad) =>
      HousekeepingDisk(app, closes, destLoad, cdsOk, filterLoad);
    case Timeout(destLoad, cdsOk, filterLoad) =>
      LoadsQuiet(app, destLoad, cdsOk, filterLoad);
      QuietDisk(app.core, mid.core);
  }

  lemma OfferDisk(mid: App, ev: Event, p: Packet, ios: StoreIos, app': App)
    requires AppInv(mid) && Offer(mid, ev, p, ios, app') && StoreKept(mid, p, ios) && DiskInv(mid.core)
    ensures DiskKept(mid.core, app'.core)
  {
    hide DiskInv, DiskKept, CoreInv, StoreFilters, AllKept, SearchEnds, IndexInv, Accounted, GoodFilters;
    UnchangedDisk(mid.core);
    if Offered(mid, ev, p) && Reaches(mid, p) {
      StoreDisk(mid.core, mid.dest.value, FiltersFor(mid, p), p, ios, FILTERS);
    }
  }

  lemma ResetSlotDisk(s: Slot, ops: seq<Op>, s': Slot)
    requires Sound(s, ops) && s'.handle.None? && s'.log == AfterReset(s).log
    ensures Sound(s', ops) && s.log <= s'.log
    ensures forall life: nat | IsLife(s', life) :: IsLife(s, life)
  {
    forall life: nat | InLog(s'.log, life) ensures IsLife(s, life) {
      var k :| 0 <= k < |s'.log| && s'.log[k].life == life;
      if k < |s.log| {
        assert s.log[k].life == life;
      }
    }
  }

  /** What a restart leaves of the destinations: their files, all closed, and the calls made so far. */
  lemma RestartSlots(app: App, destLoad: Option<DestTable>, filterLoad: Option<FilterTable>, io: CdsIo)
    ensures var core' := Restart(app, destLoad, filterLoad, io).core;
            && core'.os.ops == app.core.os.ops
            && forall i | 0 <= i < DEST_FILES ::
                 core'.slots[i].handle.None? && core'.slots[i].log == AfterReset(app.core.slots[i]).log
  {
    hide Build, AfterReset;
    forall i | 0 <= i < DEST_FILES
      ensures AfterReset(app.core.slots[i]).handle.None? && Zeroed(app.core).core.slots[i] ==
          AfterReset(app.core.slots[i])
    {
      NoneAfterReset(app.core.slots[i]);
    }
  }

  lemma NoneAfterReset(s: Slot)
    ensures AfterReset(s).handle.None?
  {
  }

  lemma RestartDisk(app: App, destLoad: Option<DestTable>, filterLoad: Option<FilterTable>, io: CdsIo)
    requires DiskInv(app.core)
    ensures DiskKept(app.core, Restart(app, destLoad, filterLoad, io).core)
  {
    hide Sound, Apart, InLog, Restart, AfterReset;
    var core, core' := app.core, Restart(app, destLoad, filterLoad, io).core;
    RestartSlots(app, destLoad, filterLoad, io);
    forall i | 0 <= i < DEST_FILES
      ensures Sound(core'.slots[i], core'.os.ops) && core.slots[i].log <= core'.slots[i].log
    {
      ResetSlotDisk(core.slots[i], core.os.ops, core'.slots[i]);
    }
    forall i, j | 0 <= i < j < DEST_FILES ensures Apart(core'.slots[i], core'.slots[j]) {
      ResetSlotDisk(core.slots[i], core.os.ops, core'.slots[i]);
      ResetSlotDisk(core.slots[j], core.os.ops, core'.slots[j]);
      StillApart(core.slots[i], core.slots[j], core'.slots[i], core'.slots[j]);
    }
  }

  lemma StillApart(a: Slot, b: Slot, a': Slot, b': Slot)
    requires Apart(a, b)
    requires forall life: nat | IsLife(a', life) :: IsLife(a, life)
    requires forall life: nat | IsLife(b', life) :: IsLife(b, life)
    ensures Apart(a', b')
  {
  }

  lemma NextDisk(app: App, input: Input, mid: App, app': App)
    requires AppInv(app) && Next(app, input, mid, app') && InputKept(app, mid, input) && DiskInv(app.core)
    ensures DiskKept(app.core, app'.core)
  {
    hide DiskInv, DiskKept, AppInv, Handle, Offer, Restart, StoreKept, CdsKept;
    match input
    case Message(ev, p, ios) =>
      HandleDisk(app, ev, mid);
      HandleKeeps(app, ev, mid);
      KeptIsInv(app.core, mid.core);
      OfferDisk(mid, ev, p, ios, app');
      DiskKeptOn(app.core, mid.core, app'.core);
    case Reset(destLoad, filterLoad, io) => RestartDisk(app, destLoad, filterLoad, io);
  }

  lemma PowerOffDisk()
    ensures DiskInv(PowerOff().core)
  {
    forall i, j | 0 <= i < j < DEST_FILES ensures Apart(PowerOff().core.slots[i], PowerOff().core.slots[j]) {
      forall life: nat ensures !IsLife(PowerOff().core.slots[i], life) {
      }
    }
  }

  // ----- Runs

  lemma {:induction false} RunDisk(apps: seq<App>, mids: seq<App>, inputs: seq<Input>, k: nat)
    requires GoodRun(apps, mids, inputs) && k <= |inputs|
    ensures DiskInv(apps[k].core)
  {
    hide DiskInv, Next, InputKept;
    if k == 0 {
      PowerOffDisk();
    } else {
      RunDisk(apps, mids, inputs, k - 1);
      RunKeeps(apps, mids, inputs, k - 1);
      NextDisk(apps[k - 1], inputs[k - 1], mids[k - 1], apps[k]);
      KeptIsInv(apps[k - 1].core, apps[k].core);
    }
  }

  /** What the file system holds after all calls made so far. */
  function DiskOf(core: Core): Disk {
    Replay(core.os.ops)
  }

  /** The file under a name, nothing if there is none. */
  function Read(disk: Disk, name: string): Bytes {
    if name in disk.dir && disk.dir[name] < |disk.nodes| then disk.nodes[disk.dir[name]].data else []
  }

  /** In every run and for every file that DS has closed: the file is still on disk, under whatever name, if and only
      if no
      later call has created its name again, moved another file to it, or written through a handle from before. If it
      is, a reader recovers exactly the packets that were stored in it. */
  lemma ClosedFileOnDiskIff(apps: seq<App>, mids: seq<App>, inputs: seq<Input>, k: nat, i: nat, n: nat)
    requires GoodRun(apps, mids, inputs) && k <= |inputs| && i < DEST_FILES && n < |apps[k].core.slots[i].log|
    ensures var f, ops := apps[k].core.slots[i].log[n], apps[k].core.os.ops;
            && f.life < |ops| && ops[f.life].Create?
            && (OnDisk(DiskOf(apps[k].core), f.life) <==>
                  forall q | f.life < q < |ops| :: !Destroys(Replay(ops[..q]), ops[q], f.life))
            && (forall name | Stands(DiskOf(apps[k].core), name, f.life) ::
                  Recovered(Read(DiskOf(apps[k].core), name)) == f.packets)
  {
    RunDisk(apps, mids, inputs, k);
    RunKeeps(apps, mids, inputs, k);
    var s, ops := apps[k].core.slots[i], apps[k].core.os.ops;
    var f := s.log[n];
    LogOf(apps[k].core, i, n);
    OnDiskFromCreation(ops, f.life);
    ArchivedReadsBack(i, f);
  }

  lemma LogOf(core: Core, i: nat, n: nat)
    requires CoreInv(core) && DiskInv(core) && i < DEST_FILES && n < |core.slots[i].log|
    ensures var f := core.slots[i].log[n]; Knows(core.os.ops, f.life, f.data) && Archived(i, f)
  {
    HeldBy(core, i);
    assert Sound(core.slots[i], core.os.ops);
  }

  lemma OnDiskFromCreation(ops: seq<Op>, life: nat)
    requires life < |ops| && ops[life].Create?
    ensures OnDisk(Replay(ops), life) <==> forall q | life < q < |ops| :: !Destroys(Replay(ops[..q]), ops[q], life)
  {
    hide Do, Replay, Destroys, Proper;
    OnDiskIff(ops, life + 1, |ops|, life);
    assert ops[..|ops|] == ops && ops[..life + 1] == ops[..life] + [ops[life]];
    CreatedKnown(ops[..life], ops[life].handle, ops[life].name);
  }
}
