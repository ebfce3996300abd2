/** The numbering of files over whole runs. */
module AppNames {
  import opened HashChains
  import opened HashIndex
  import opened FilterAlgorithm
  import opened FileName
  import opened FileFormat
  import opened DestFile
  import opened DestFileProofs
  import opened App
  import opened AppCore
  import opened AppSteps
  import opened AppRuns

  /** The numbering goes on from `s` to `s'`: files are only added, and unless it passes the greatest number they
      have the consecutive numbers from the count on, and the count rises by as many. */
  ghost predicate Continues(s: Slot, s': Slot) {
    && s.made <= s'.made
    && var n := |s'.made| - |s.made|;
       s.count + n <= MAX_SEQUENCE_COUNT ==>
         && s'.count == s.count + n
         && forall a | |s.made| <= a < |s'.made| :: s'.made[a].number == s.count + (a - |s.made|)
  }

  lemma ContinuesOn(s: Slot, s1: Slot, s2: Slot)
    requires Continues(s, s1) && Continues(s1, s2)
    ensures Continues(s, s2)
  {
    assert forall a | 0 <= a < |s1.made| :: s2.made[a] == s1.made[a];
  }

  predicate SameNumbering(s: Slot, s': Slot) {
    s'.made == s.made && s'.count == s.count
  }

  lemma SameContinues(s: Slot, s': Slot)
    requires SameNumbering(s, s')
    ensures Continues(s, s')
  {
  }

  // ----- One destination

  lemma WriteDataNumbers(w: World, e: Entry, p: Bytes, io: WriteIo)
    ensures SameNumbering(w.s, WriteData(w, e, p, io).s)
  {
  }

  lemma WriteHeaderNumbers(w: World, e: Entry, i: nat, io: CreateIo)
    ensures SameNumbering(w.s, WriteHeader(w, e, i, io).s)
  {
    hide Overlay, DsHeader, NameBytes, Prefix, MoveTarget;
  }

  lemma CreateDestContinues(w: World, e: Entry, i: nat, io: CreateIo)
    ensures Continues(w.s, CreateDest(w, e, i, io).s) && |CreateDest(w, e, i, io).s.made| <= |w.s.made| + 1
  {
    hide WriteHeader, NameFor, SequenceText, NameBytes;
    var built := NameFor(e.parts, SequenceText(e.nameType, w.s.count, io.clock));
    if built.Some? && built.value != "" && io.handle.Some? {
      var s := Blank(w.s, e, i, built.value, io.handle, |w.os.ops|);
      WriteHeaderNumbers(w.(s := s, os := Opened(w.os, io.handle.value, built.value)), e, i, io);
    } else if built.None? && w.s.name != "" && io.handle.Some? {
      var s := Blank(w.s.(state := DISABLED), e, i, w.s.name, io.handle, |w.os.ops|);
      WriteHeaderNumbers(w.(s := s, os := Opened(w.os, io.handle.value, w.s.name)), e, i, io);
    }
  }

  lemma NewFileContinues(w: World, e: Entry, i: nat, p: Bytes, io: SetupIo)
    ensures Continues(w.s, NewFile(w, e, i, p, io).s)
  {
    hide CreateDest, WriteData;
    CreateDestContinues(w, e, i, io.create);
    var w1 := CreateDest(w, e, i, io.create);
    WriteDataNumbers(w1, e, p, io.write);
  }

  lemma CloseNumbers(w: World, e: Entry, update: UpdateIo, close: CloseIo)
    ensures SameNumbering(w.s, CloseDest(UpdateHeader(w, update), e, close).s)
  {
  }

  lemma SetupWriteContinues(w: World, e: Entry, i: nat, p: Bytes, io: SetupIo)
    ensures Continues(w.s, SetupWrite(w, e, i, p, io).s)
  {
    hide NewFile, WriteData, CloseDest, UpdateHeader;
    WriteDataNumbers(w, e, p, io.write);
    CloseNumbers(w, e, io.update, io.close);
    NewFileContinues(w, e, i, p, io);
    NewFileContinues(CloseDest(UpdateHeader(w, io.update), e, io.close), e, i, p, io);
  }

  // ----- All destinations

  lemma {:induction false} StoreContinues(core: Core, dest: DestTable, filters: FilterList, p: Packet, ios: StoreIos,
                                          k: nat, i: nat)
    requires k <= FILTERS && i < DEST_FILES
    ensures Continues(core.slots[i], StoreFilters(core, dest, filters, p, ios, k).0.slots[i])
  {
    hide SetupWrite, Selected;
    if k == 0 {
      SameContinues(core.slots[i], core.slots[i]);
    } else {
      StoreContinues(core, dest, filters, p, ios, k - 1, i);
      var before, f := StoreFilters(core, dest, filters, p, ios, k - 1).0, filters[k - 1];
      if f.fileIndex == i {
        SetupWriteContinues(At(before, i), dest[i], i, p.bytes, ios[k - 1].setup);
        ContinuesOn(core.slots[i], before.slots[i], SetupWrite(At(before, i), dest[i], i, p.bytes, ios[k - 1].setup).s);
      }
    }
  }

  lemma {:induction false} AgeNumbers(core: Core, dest: DestTable, ios: CloseIos, k: nat, i: nat)
    requires k <= DEST_FILES && i < DEST_FILES
    ensures SameNumbering(core.slots[i], AgeAll(core, dest, ios, k).slots[i])
  {
    hide CloseDest, UpdateHeader;
    if k > 0 {
      AgeNumbers(core, dest, ios, k - 1, i);
      var w := At(AgeAll(core, dest, ios, k - 1), k - 1);
      CloseNumbers(w.(s := Older(w.s)), dest[k - 1], ios[k - 1].update, ios[k - 1].close);
    }
  }

  lemma CloseOneNumbers(core: Core, dest: Option<DestTable>, j: nat, io: CloseOutcome, i: nat)
    requires j < DEST_FILES && i < DEST_FILES
    ensures SameNumbering(core.slots[i], CloseOne(core, dest, j, io).slots[i])
  {
    hide CloseDest, UpdateHeader;
    if dest.Some? {
      CloseNumbers(At(core, j), dest.value[j], io.update, io.close);
    }
  }

  lemma {:induction false} CloseAllNumbers(core: Core, dest: Option<DestTable>, ios: CloseIos, k: nat, i: nat)
    requires k <= DEST_FILES && i < DEST_FILES
    ensures SameNumbering(core.slots[i], CloseAll(core, dest, ios, k).slots[i])
  {
    hide CloseOne;
    if k > 0 {
      CloseAllNumbers(core, dest, ios, k - 1, i);
      CloseOneNumbers(CloseAll(core, dest, ios, k - 1), dest, k - 1, ios[k - 1], i);
    }
  }

  // ----- Inputs

  predicate Accepted(load: Option<DestTable>) {
    load.Some? && VerifyDestTable(load.value)
  }

  /** The message does not set the count of destination `i`: no SET COUNT for it, no destination table that passes. */
  predicate LeavesCount(ev: Event, i: nat) {
    match ev
    case Data => true
    case CommandMsg(cmd) => cmd.SetDestCount? ==> cmd.i != i
    case HkRequest(_, _, destLoad, _, _) => !Accepted(destLoad)
    case Timeout(destLoad, _, _) => !Accepted(destLoad)
  }

  /** No SET COUNT and no table load, and a reset only where the CDS is good before it and restored after it. */
  predicate KeepsCount(app: App, input: Input, i: nat) {
    match input
    case Message(ev, _, _) => LeavesCount(ev, i)
    case Reset(_, _, io) => app.core.cds.good && io.Existing? && io.restored
  }

  lemma CommandNumbers(app: App, cmd: Command, i: nat)
    requires AppInv(app) && CanApply(app, cmd) && CommandKept(cmd) && i < DEST_FILES
    requires cmd.SetDestCount? ==> cmd.i != i
    ensures SameNumbering(app.core.slots[i], Apply(app, cmd).core.slots[i])
  {
    hide AppInv, CloseAll, CloseOne;
    if cmd.SetFilterFile? || cmd.SetFilterType? || cmd.SetFilterParms? || cmd.AddMID? || cmd.RemoveMID? {
      FilterCommandKeeps(app, cmd);
    } else if cmd.CloseFile? && cmd.i < DEST_FILES {
      CloseOneNumbers(app.core, app.dest, cmd.i, cmd.io, i);
    } else if cmd.CloseAllFiles? {
      CloseAllNumbers(app.core, app.dest, cmd.ios, DEST_FILES, i);
    } else if !cmd.SetAppState? && !cmd.SetDestState? && !cmd.SetDestCount? {
      EntryCommandKeeps(app, cmd);
    }
  }

  lemma HandleNumbers(app: App, ev: Event, mid: App, i: nat)
    requires AppInv(app) && Handle(app, ev, mid) && i < DEST_FILES && LeavesCount(ev, i)
    requires ev.CommandMsg? ==> CommandKept(ev.cmd)
    ensures SameNumbering(app.core.slots[i], mid.core.slots[i])
  {
    hide AppInv, AgeAll, Apply, Build;
    match ev
    case Data =>
    case CommandMsg(cmd) => CommandNumbers(app, cmd, i);
    case HkRequest(wellFormed, closes, destLoad, cdsOk, filterLoad) =>
      if app.dest.Some? {
        AgeNumbers(app.core, app.dest.value, closes, DEST_FILES, i);
      }
    case Timeout(destLoad, cdsOk, filterLoad) =>
  }

  lemma OfferContinues(mid: App, ev: Event, p: Packet, ios: StoreIos, app': App, i: nat)
    requires Offer(mid, ev, p, ios, app') && i < DEST_FILES
    ensures Continues(mid.core.slots[i], app'.core.slots[i])
  {
    hide StoreFilters, Continues, SearchEnds;
    SameContinues(mid.core.slots[i], mid.core.slots[i]);
    if Offered(mid, ev, p) && Reaches(mid, p) {
      StoreContinues(mid.core, mid.dest.value, FiltersFor(mid, p), p, ios, FILTERS, i);
    }
  }

  lemma ResetNumbers(app: App, destLoad: Option<DestTable>, filterLoad: Option<FilterTable>, io: CdsIo, i: nat)
    requires AppInv(app) && CdsKept(app.core, io) && app.core.cds.good && io.Existing? && io.restored && i < DEST_FILES
    ensures SameNumbering(app.core.slots[i], Restart(app, destLoad, filterLoad, io).core.slots[i])
  {
    assert io.counts[i] == Counts(app.core.slots)[i] == app.core.slots[i].count;
  }

  lemma NextContinues(app: App, input: Input, mid: App, app': App, i: nat)
    requires AppInv(app) && Next(app, input, mid, app') && InputKept(app, mid, input) && i < DEST_FILES
    requires KeepsCount(app, input, i)
    ensures Continues(app.core.slots[i], app'.core.slots[i])
  {
    hide AppInv, Handle, Offer, Restart, Continues, SameNumbering, CdsKept;
    match input
    case Message(ev, p, ios) =>
      HandleNumbers(app, ev, mid, i);
      SameContinues(app.core.slots[i], mid.core.slots[i]);
      OfferContinues(mid, ev, p, ios, app', i);
      ContinuesOn(app.core.slots[i], mid.core.slots[i], app'.core.slots[i]);
    case Reset(destLoad, filterLoad, io) =>
      ResetNumbers(app, destLoad, filterLoad, io, i);
      SameContinues(app.core.slots[i], app'.core.slots[i]);
  }

  // ----- Runs

  lemma {:induction false} RunContinues(apps: seq<App>, mids: seq<App>, inputs: seq<Input>, j: nat, k: nat, i: nat)
    requires GoodRun(apps, mids, inputs) && j <= k <= |inputs| && i < DEST_FILES
    requires forall n | j <= n < k :: KeepsCount(apps[n], inputs[n], i)
    ensures Continues(apps[j].core.slots[i], apps[k].core.slots[i])
    decreases k
  {
    hide AppInv, Next, InputKept, Continues, KeepsCount;
    if j == k {
      SameContinues(apps[k].core.slots[i], apps[k].core.slots[i]);
    } else {
      RunContinues(apps, mids, inputs, j, k - 1, i);
      RunKeeps(apps, mids, inputs, k - 1);
      NextContinues(apps[k - 1], inputs[k - 1], mids[k - 1], apps[k], i);
      ContinuesOn(apps[j].core.slots[i], apps[k - 1].core.slots[i], apps[k].core.slots[i]);
    }
  }

  /** Over any stretch of a run without SET COUNT for the destination, without a destination table load, with resets
      only where a good CDS is restored, and without rollover: the files made so far are only added to, the new ones have
      the consecutive numbers from the count on, and those built from the same parts have different names. */
  lemma {:induction false} RunNamesNotReused(apps: seq<App>, mids: seq<App>, inputs: seq<Input>, j: nat, k: nat, i: nat)
    requires GoodRun(apps, mids, inputs) && j <= k <= |inputs| && i < DEST_FILES
    requires forall n | j <= n < k :: KeepsCount(apps[n], inputs[n], i)
    requires var s, s' := apps[j].core.slots[i], apps[k].core.slots[i];
             s.count + |s'.made| - |s.made| <= MAX_SEQUENCE_COUNT
    ensures var s, s' := apps[j].core.slots[i], apps[k].core.slots[i];
            && s.made <= s'.made && s'.count == s.count + |s'.made| - |s.made|
            && (forall a | |s.made| <= a < |s'.made| ::
                  s'.made[a].number == s.count + (a - |s.made|) && NamedByNumber(s'.made[a]))
            && (forall a, b | |s.made| <= a < b < |s'.made| && s'.made[a].parts == s'.made[b].parts ::
                  s'.made[a].name != s'.made[b].name)
  {
    RunContinues(apps, mids, inputs, j, k, i);
    RunKeeps(apps, mids, inputs, k);
    HeldBy(apps[k].core, i);
    var s, s' := apps[j].core.slots[i], apps[k].core.slots[i];
    assert forall a | 0 <= a < |s'.made| :: NamedByNumber(s'.made[a]);
    forall a, b | |s.made| <= a < b < |s'.made| && s'.made[a].parts == s'.made[b].parts
      ensures s'.made[a].name != s'.made[b].name
    {
      NamesNotReused(i, s', a, b);
    }
  }
}
