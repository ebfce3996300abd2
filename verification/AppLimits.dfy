/** Size and age limits over whole runs. */
module AppLimits {
  import opened HashChains
  import opened FilterAlgorithm
  import opened FileName
  import opened FileFormat
  import opened DestFile
  import opened DestFileProofs
  import opened App
  import opened AppCore
  import opened AppSteps
  import opened AppRuns

  /** Destination `i` has the limits `maxSize` and `maxAge` in force, the latter one that can be reached. */
  ghost predicate LimitsAre(app: App, i: nat, maxSize: nat, maxAge: nat)
    requires i < DEST_FILES
  {
    app.dest.Some? && app.dest.value[i].maxSize == maxSize && app.dest.value[i].maxAge == maxAge
    && 0 < maxAge <= U32 - 4
  }

  lemma {:induction false} StoreWithinLimits(core: Core, dest: DestTable, filters: FilterList, p: Packet, ios: StoreIos,
                                             k: nat, i: nat)
    requires CoreInv(core) && TableFits(dest) && Framed(p.bytes) && k <= FILTERS && i < DEST_FILES
    requires AllKept(core, dest, filters, p, ios, k)
    requires WithinLimits(core.slots[i], dest[i].maxSize, dest[i].maxAge) && dest[i].maxAge > 0
    ensures WithinLimits(StoreFilters(core, dest, filters, p, ios, k).0.slots[i], dest[i].maxSize, dest[i].maxAge)
  {
    if k > 0 {
      StoreWithinLimits(core, dest, filters, p, ios, k - 1, i);
      StoreFiltersKeeps(core, dest, filters, p, ios, k - 1);
      var before, f := StoreFilters(core, dest, filters, p, ios, k - 1).0, filters[k - 1];
      if Selected(before.slots, f, p) {
        StoreOneKeeps(before, dest, f.fileIndex, p, ios[k - 1]);
        if f.fileIndex == i {
          HeldBy(before, i);
          SetupWriteWithinSize(i, At(before, i), dest[i], p.bytes, ios[k - 1].setup);
          SetupWriteTests(i, At(before, i), dest[i], p.bytes, ios[k - 1].setup);
        }
      }
    }
  }

  lemma {:induction false} AgeWithinLimits(core: Core, dest: DestTable, ios: CloseIos, k: nat, i: nat)
    requires CoreInv(core) && TimesOk(ios) && k <= DEST_FILES && i < DEST_FILES
    requires WithinLimits(core.slots[i], dest[i].maxSize, dest[i].maxAge) && dest[i].maxAge <= U32 - 4
    ensures WithinLimits(AgeAll(core, dest, ios, k).slots[i], dest[i].maxSize, dest[i].maxAge)
  {
    hide WithinLimits, CoreInv, AgeTest, Put, At;
    if k > 0 {
      AgeWithinLimits(core, dest, ios, k - 1, i);
      AgeAllKeeps(core, dest, ios, k - 1);
      AgeOneWithinLimits(AgeAll(core, dest, ios, k - 1), dest, ios[k - 1], k - 1, i);
    }
  }

  lemma AgeOneWithinLimits(core: Core, dest: DestTable, io: CloseOutcome, j: nat, i: nat)
    requires CoreInv(core) && |io.update.time| == TIME_SIZE && j < DEST_FILES && i < DEST_FILES
    requires WithinLimits(core.slots[i], dest[i].maxSize, dest[i].maxAge) && dest[i].maxAge <= U32 - 4
    ensures WithinLimits(Put(core, j, AgeTest(At(core, j), dest[j], io.update, io.close), true).slots[i],
                         dest[i].maxSize, dest[i].maxAge)
  {
    hide WithinLimits, AgeTest;
    AgeOneKeeps(core, dest, io, j);
    if j == i {
      HeldBy(core, i);
      AgeTestWithinLimits(i, At(core, i), dest[i], io.update, io.close);
    }
  }

  /** The open file of a destination is the same one with the same history, or there is none. */
  ghost predicate SameFileOrNone(s: Slot, s': Slot) {
    s'.handle.None? ||
    (s.handle.Some? && s'.packets == s.packets && s'.data == s.data && s'.tests == s.tests)
  }

  lemma SameFile(s: Slot)
    ensures SameFileOrNone(s, s)
  {
  }

  lemma StatusSameFile(app: App, cmd: Command, i: nat)
    requires (cmd.SetAppState? || cmd.SetDestState? || cmd.SetDestCount?) && i < DEST_FILES
    ensures SameFileOrNone(app.core.slots[i], Apply(app, cmd).core.slots[i])
  {
  }

  lemma CloseSameFile(app: App, cmd: Command, i: nat)
    requires AppInv(app) && CommandKept(cmd) && (cmd.CloseFile? || cmd.CloseAllFiles?) && i < DEST_FILES
    ensures SameFileOrNone(app.core.slots[i], Apply(app, cmd).core.slots[i])
  {
    hide CloseOne, CloseAll;
    match cmd
    case CloseFile(j, io) =>
      if j < DEST_FILES {
        CloseOneKeeps(app.core, app.dest, j, io);
      }
    case CloseAllFiles(ios) => CloseAllKeeps(app.core, app.dest, ios, DEST_FILES);
  }

  lemma CommandSameFile(app: App, cmd: Command, i: nat)
    requires AppInv(app) && CanApply(app, cmd) && CommandKept(cmd) && i < DEST_FILES
    ensures SameFileOrNone(app.core.slots[i], Apply(app, cmd).core.slots[i])
  {
    hide AppInv, SameFileOrNone;
    SameFile(app.core.slots[i]);
    if cmd.SetFilterFile? || cmd.SetFilterType? || cmd.SetFilterParms? || cmd.AddMID? || cmd.RemoveMID? {
      FilterCommandKeeps(app, cmd);
    } else if cmd.CloseFile? || cmd.CloseAllFiles? {
      CloseSameFile(app, cmd, i);
    } else if cmd.SetAppState? || cmd.SetDestState? || cmd.SetDestCount? {
      StatusSameFile(app, cmd, i);
    } else {
      EntryCommandKeeps(app, cmd);
    }
  }

  lemma LoadSameFile(app: App, destLoad: Option<DestTable>, cdsOk: bool, filterLoad: Option<FilterTable>, i: nat)
    requires i < DEST_FILES
    ensures SameFileOrNone(app.core.slots[i],
                           ManageFilter(ManageDest(app, destLoad, cdsOk), filterLoad).core.slots[i])
  {
  }

  lemma HandleWithinLimits(app: App, ev: Event, mid: App, i: nat, maxSize: nat, maxAge: nat)
    requires AppInv(app) && Handle(app, ev, mid) && i < DEST_FILES
    requires (ev.HkRequest? ==> TimesOk(ev.closes)) && (ev.CommandMsg? ==> CommandKept(ev.cmd))
    requires LimitsAre(app, i, maxSize, maxAge) && WithinLimits(app.core.slots[i], maxSize, maxAge)
    ensures WithinLimits(mid.core.slots[i], maxSize, maxAge)
  {
    match ev
    case Data =>
    case CommandMsg(cmd) => CommandSameFile(app, cmd, i);
    case Timeout(destLoad, cdsOk, filterLoad) => LoadSameFile(app, destLoad, cdsOk, filterLoad, i);
    case HkRequest(wellFormed, closes, destLoad, cdsOk, filterLoad) =>
      if wellFormed {
        AgeWithinLimits(app.core, app.dest.value, closes, DEST_FILES, i);
        var aged := app.(core := AgeAll(app.core, app.dest.value, closes, DEST_FILES));
        LoadSameFile(aged, destLoad, cdsOk, filterLoad, i);
      }
  }

  lemma OfferWithinLimits(mid: App, ev: Event, p: Packet, ios: StoreIos, app': App, i: nat, maxSize: nat, maxAge: nat)
    requires AppInv(mid) && Offer(mid, ev, p, ios, app') && StoreKept(mid, p, ios) && i < DEST_FILES
    requires LimitsAre(mid, i, maxSize, maxAge) && WithinLimits(mid.core.slots[i], maxSize, maxAge)
    ensures WithinLimits(app'.core.slots[i], maxSize, maxAge)
  {
    hide WithinLimits;
    if Offered(mid, ev, p) && Reaches(mid, p) {
      StoreWithinLimits(mid.core, mid.dest.value, FiltersFor(mid, p), p, ios, FILTERS, i);
    }
  }

  lemma NextWithinLimits(app: App, input: Input, mid: App, app': App, i: nat, maxSize: nat, maxAge: nat)
    requires AppInv(app) && Next(app, input, mid, app') && InputKept(app, mid, input) && i < DEST_FILES
    requires LimitsAre(app, i, maxSize, maxAge) && LimitsAre(mid, i, maxSize, maxAge)
    requires WithinLimits(app.core.slots[i], maxSize, maxAge)
    ensures WithinLimits(app'.core.slots[i], maxSize, maxAge)
  {
    match input
    case Message(ev, p, ios) =>
      HandleWithinLimits(app, ev, mid, i, maxSize, maxAge);
      HandleKeeps(app, ev, mid);
      OfferWithinLimits(mid, ev, p, ios, app', i, maxSize, maxAge);
    case Reset(destLoad, filterLoad, io) => RestartCloses(app, destLoad, filterLoad, io, i);
  }

  lemma RestartCloses(app: App, destLoad: Option<DestTable>, filterLoad: Option<FilterTable>, io: CdsIo, i: nat)
    requires i < DEST_FILES
    ensures Restart(app, destLoad, filterLoad, io).core.slots[i].handle.None?
  {
  }

  lemma ClosedWithinLimits(s: Slot, maxSize: nat, maxAge: nat)
    requires s.handle.None?
    ensures WithinLimits(s, maxSize, maxAge)
  {
  }

  /** While a destination's limits stay fixed, from a moment at which it is closed: at every later moment its open file
      holds one packet or is within the size limit, and has seen fewer than ceil(maxAge / 4) housekeeping cycles. */
  lemma {:induction false} RunWithinLimits(apps: seq<App>, mids: seq<App>, inputs: seq<Input>, j: nat, k: nat, i: nat,
                                           maxSize: nat, maxAge: nat)
    requires GoodRun(apps, mids, inputs) && j <= k <= |inputs| && i < DEST_FILES
    requires apps[j].core.slots[i].handle.None?
    requires forall n | j <= n < k :: LimitsAre(apps[n], i, maxSize, maxAge) && LimitsAre(mids[n], i, maxSize, maxAge)
    ensures WithinLimits(apps[k].core.slots[i], maxSize, maxAge)
    decreases k
  {
    hide WithinLimits, LimitsAre, Next, InputKept, AppInv;
    if j == k {
      ClosedWithinLimits(apps[k].core.slots[i], maxSize, maxAge);
    } else {
      RunWithinLimits(apps, mids, inputs, j, k - 1, i, maxSize, maxAge);
      RunKeeps(apps, mids, inputs, k - 1);
      NextWithinLimits(apps[k - 1], inputs[k - 1], mids[k - 1], apps[k], i, maxSize, maxAge);
    }
  }
}
