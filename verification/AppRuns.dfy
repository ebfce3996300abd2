/** The application over whole runs of messages and restarts. */
module AppRuns {
  import opened HashChains
  import opened HashIndex
  import HashRuns
  import opened FilterAlgorithm
  import opened FileName
  import opened FileFormat
  import opened DestFile
  import opened DestFileProofs
  import opened App
  import opened AppCore
  import opened AppSteps

  /** What the environment promises for one input: the OS and cFE contracts, and framed packets. */
  ghost predicate InputKept(app: App, mid: App, input: Input) {
    match input
    case Message(ev, p, ios) =>
      && StoreKept(mid, p, ios)
      && (ev.HkRequest? ==> TimesOk(ev.closes))
      && (ev.CommandMsg? ==> CommandKept(ev.cmd))
    case Reset(_, _, io) => CdsKept(app.core, io)
  }

  ghost predicate GoodRun(apps: seq<App>, mids: seq<App>, inputs: seq<Input>) {
    Run(apps, mids, inputs) && forall k | 0 <= k < |inputs| :: InputKept(apps[k], mids[k], inputs[k])
  }

  /** The message reaches `DS_AppStorePacket`. */
  ghost predicate Offered(mid: App, ev: Event, p: Packet) {
    ev.Data? || (!ev.Timeout? && CanFindEntry(mid, p.mid) && Lookup(mid, p.mid) != -1)
  }

  lemma HandleKeeps(app: App, ev: Event, mid: App)
    requires AppInv(app) && Handle(app, ev, mid)
    requires (ev.HkRequest? ==> TimesOk(ev.closes)) && (ev.CommandMsg? ==> CommandKept(ev.cmd))
    ensures AppInv(mid) && SameFiles(app.core.slots, mid.core.slots)
  {
    match ev
    case Data =>
    case CommandMsg(cmd) => CommandKeeps(app, cmd);
    case HkRequest(wellFormed, closes, destLoad, cdsOk, filterLoad) =>
      HousekeepingKeeps(app, closes, destLoad, cdsOk, filterLoad);
    case Timeout(destLoad, cdsOk, filterLoad) => LoadsKeep(app, destLoad, cdsOk, filterLoad);
  }

  /** What one input adds to the stored packets of destination `i`. */
  ghost function Gain(mid: App, input: Input, i: nat): seq<Bytes> {
    match input
    case Message(ev, p, ios) => if Offered(mid, ev, p) then StoredBy(mid, p, ios, i) else []
    case Reset(_, _, _) => []
  }

  lemma NextKeeps(app: App, input: Input, mid: App, app': App)
    requires AppInv(app) && Next(app, input, mid, app') && InputKept(app, mid, input)
    ensures AppInv(app')
    ensures forall i | 0 <= i < DEST_FILES ::
              Stored(app'.core.slots[i]) == Stored(app.core.slots[i]) + Gain(mid, input, i)
  {
    forall i | 0 <= i < DEST_FILES ensures Stored(app.core.slots[i]) + [] == Stored(app.core.slots[i]) {}
    match input
    case Message(ev, p, ios) =>
      HandleKeeps(app, ev, mid);
      if Offered(mid, ev, p) {
        StoreKeeps(mid, p, ios);
      }
    case Reset(destLoad, filterLoad, io) => RestartKeeps(app, destLoad, filterLoad, io);
  }

  lemma PowerOffInv()
    ensures AppInv(PowerOff())
  {
    forall i | 0 <= i < DEST_FILES ensures SlotInv(i, PowerOff().core.slots[i]) {
      assert PowerOff().core.slots[i] == ZeroSlot();
    }
  }

  /** Everything that the inputs before `k` added for destination `i`, in order of arrival. */
  ghost function Gains(mids: seq<App>, inputs: seq<Input>, k: nat, i: nat): seq<Bytes>
    requires k <= |inputs| == |mids|
  {
    if k == 0 then [] else Gains(mids, inputs, k - 1, i) + Gain(mids[k - 1], inputs[k - 1], i)
  }

  /** The invariant holds between any two inputs of every run, whatever the OS calls returned, and each destination's
      files hold exactly what the accepted writes put there. */
  lemma {:induction false} RunKeeps(apps: seq<App>, mids: seq<App>, inputs: seq<Input>, k: nat)
    requires GoodRun(apps, mids, inputs) && k <= |inputs|
    ensures AppInv(apps[k])
    ensures forall i | 0 <= i < DEST_FILES :: Stored(apps[k].core.slots[i]) == Gains(mids, inputs, k, i)
  {
    if k == 0 {
      PowerOffInv();
      assert forall i | 0 <= i < DEST_FILES :: Stored(PowerOff().core.slots[i]) == [];
    } else {
      RunKeeps(apps, mids, inputs, k - 1);
      NextKeeps(apps[k - 1], inputs[k - 1], mids[k - 1], apps[k]);
    }
  }

  // ----- What is written, whatever then becomes of the files: see `AppDisk` and `AppKept`

  /** Every write that the message causes goes through. */
  ghost predicate WritesSucceed(mid: App, input: Input) {
    input.Message? && Offered(mid, input.ev, input.p) && Reaches(mid, input.p) ==>
      NoFailure(mid.core, mid.dest.value, FiltersFor(mid, input.p), input.p, input.ios, FILTERS)
  }

  /** What the filters promise for one input: if DS is enabled, both tables are loaded and the message's ID is in the
      filter table, one copy of the packet for each filter of its entry that takes it for destination `i`. */
  ghost function Promise(mid: App, input: Input, i: nat): seq<Bytes>
    requires i < DEST_FILES
  {
    if input.Message? && Offered(mid, input.ev, input.p)
       && mid.core.enabled != 0 && mid.filter.Some? && mid.dest.Some?
       && CanFindEntry(mid, input.p.mid) && Lookup(mid, input.p.mid) != -1 then
      var filters := mid.filter.value[Lookup(mid, input.p.mid)].filters;
      Repeated(input.p.bytes, |Takers(mid.core.slots, filters, input.p, FILTERS, i)|)
    else []
  }

  ghost function Promises(mids: seq<App>, inputs: seq<Input>, k: nat, i: nat): seq<Bytes>
    requires k <= |inputs| == |mids| && i < DEST_FILES
  {
    if k == 0 then [] else Promises(mids, inputs, k - 1, i) + Promise(mids[k - 1], inputs[k - 1], i)
  }

  lemma GainIsPromise(app: App, mid: App, input: Input, app': App, i: nat)
    requires AppInv(app) && Next(app, input, mid, app') && InputKept(app, mid, input) && WritesSucceed(mid, input)
    requires i < DEST_FILES
    ensures Gain(mid, input, i) == Promise(mid, input, i)
  {
    if input.Message? && Offered(mid, input.ev, input.p) && Reaches(mid, input.p) {
      HandleKeeps(app, input.ev, mid);
      AddedIsCopies(mid.core, mid.dest.value, FiltersFor(mid, input.p), input.p, input.ios, FILTERS, i);
      CopiesAreTaken(mid.core.slots, FiltersFor(mid, input.p), input.p, FILTERS, i);
    }
  }

  /** If no write fails, what DS has written for a destination, one file after the other, are exactly the packets that
      passed its filters while it was enabled, in arrival order and once per matching filter. */
  lemma {:induction false} WrittenIsPromised(apps: seq<App>, mids: seq<App>, inputs: seq<Input>, k: nat)
    requires GoodRun(apps, mids, inputs) && k <= |inputs|
    requires forall j | 0 <= j < k :: WritesSucceed(mids[j], inputs[j])
    ensures forall i | 0 <= i < DEST_FILES :: Stored(apps[k].core.slots[i]) == Promises(mids, inputs, k, i)
  {
    RunKeeps(apps, mids, inputs, k);
    forall i | 0 <= i < DEST_FILES ensures Stored(apps[k].core.slots[i]) == Promises(mids, inputs, k, i) {
      GainsArePromises(apps, mids, inputs, k, i);
    }
  }

  lemma {:induction false} GainsArePromises(apps: seq<App>, mids: seq<App>, inputs: seq<Input>, k: nat, i: nat)
    requires GoodRun(apps, mids, inputs) && k <= |inputs| && i < DEST_FILES
    requires forall j | 0 <= j < k :: WritesSucceed(mids[j], inputs[j])
    ensures Gains(mids, inputs, k, i) == Promises(mids, inputs, k, i)
  {
    if k > 0 {
      GainsArePromises(apps, mids, inputs, k - 1, i);
      RunKeeps(apps, mids, inputs, k - 1);
      GainIsPromise(apps[k - 1], mids[k - 1], inputs[k - 1], apps[k], i);
    }
  }

  // ----- Reading back what was written

  /** The packets that a reader finds in a file; none if the headers are incomplete. */
  function Recovered(data: Bytes): seq<Bytes> {
    var parsed := ParseHeaders(data);
    if parsed.File? then Frames(parsed.data) else []
  }

  function RecoveredAll(log: seq<DiskFile>): seq<Bytes> {
    if log == [] then [] else RecoveredAll(log[..|log| - 1]) + Recovered(log[|log| - 1].data)
  }

  lemma ArchivedReadsBack(i: nat, f: DiskFile)
    requires Archived(i, f)
    ensures Recovered(f.data) == f.packets
  {
    if |f.data| >= HEADER_SIZE {
      var tail :| Partial(tail) && AllFramed(f.packets) && Image(i, f.header, f.data, Flatten(f.packets) + tail);
      ParseOfLayout(f.data, i, f.header.nameType, f.header.name, Flatten(f.packets) + tail);
      FramesOfFlatten(f.packets, tail);
    }
  }

  lemma {:induction false} LogReadsBack(i: nat, log: seq<DiskFile>)
    requires AllArchived(i, log)
    ensures RecoveredAll(log) == Packets(log)
  {
    if log != [] {
      LogReadsBack(i, log[..|log| - 1]);
      ArchivedReadsBack(i, log[|log| - 1]);
    }
  }

  /** Every file of a destination, as DS wrote it, gives its packets back to a reader, even where creations, writes or
      header updates failed half-way; each complete header names its destination. */
  lemma WrittenReadsBack(apps: seq<App>, mids: seq<App>, inputs: seq<Input>, k: nat, i: nat)
    requires GoodRun(apps, mids, inputs) && k <= |inputs| && i < DEST_FILES
    ensures var s := apps[k].core.slots[i];
            RecoveredAll(s.log) + Recovered(s.data) == Gains(mids, inputs, k, i)
    ensures var s := apps[k].core.slots[i];
            forall f | f in s.log && |f.data| >= HEADER_SIZE ::
              ParseHeaders(f.data).File? && ParseHeaders(f.data).header.fileIndex == i
  {
    RunKeeps(apps, mids, inputs, k);
    var s := apps[k].core.slots[i];
    HeldBy(apps[k].core, i);
    LogReadsBack(i, s.log);
    if s.handle.Some? {
      OpenIsClosable(i, s);
      ArchivedReadsBack(i, DiskFile(s.name, s.data, s.packets, s.header, s.life));
    } else {
      assert Packets(s.log) + [] == Packets(s.log);
    }
    forall f | f in s.log && |f.data| >= HEADER_SIZE
      ensures ParseHeaders(f.data).File? && ParseHeaders(f.data).header.fileIndex == i
    {
      var j :| 0 <= j < |s.log| && s.log[j] == f;
      assert Archived(i, s.log[j]);
      var tail :| Partial(tail) && AllFramed(f.packets) && Image(i, f.header, f.data, Flatten(f.packets) + tail);
      ParseOfLayout(f.data, i, f.header.nameType, f.header.name, Flatten(f.packets) + tail);
    }
  }

  // ----- Other whole-run results

  /** The messages offered for storage before input `k`, since the counters were last reset by command or restart: all
      but DS's
      own ones, and of those the ones whose ID is in the filter table. */
  ghost function OfferedSince(mids: seq<App>, inputs: seq<Input>, k: nat): nat
    requires k <= |inputs| == |mids|
  {
    if k == 0 || inputs[k - 1].Reset? then 0
    else
      var ev := inputs[k - 1].ev;
      (if ev == CommandMsg(ResetCounters) then 0 else OfferedSince(mids, inputs, k - 1)) +
      (if Offered(mids[k - 1], ev, inputs[k - 1].p) then 1 else 0)
  }

  lemma HandleAttempts(app: App, ev: Event, mid: App)
    requires Handle(app, ev, mid)
    ensures mid.attempts == if ev == CommandMsg(ResetCounters) then 0 else app.attempts
  {
    hide AgeAll, CloseAll, CloseOne, Build, SearchEnds, Find;
  }

  lemma OfferAttempts(mid: App, ev: Event, p: Packet, ios: StoreIos, app': App)
    requires Offer(mid, ev, p, ios, app')
    ensures app'.attempts == mid.attempts + if Offered(mid, ev, p) then 1 else 0
  {
    hide StoreFilters, SearchEnds;
  }

  lemma {:induction false} AttemptsAreOffers(apps: seq<App>, mids: seq<App>, inputs: seq<Input>, k: nat)
    requires GoodRun(apps, mids, inputs) && k <= |inputs|
    ensures apps[k].attempts == OfferedSince(mids, inputs, k)
  {
    hide Handle, Offer, InputKept, Build;
    if k > 0 {
      AttemptsAreOffers(apps, mids, inputs, k - 1);
      assert Next(apps[k - 1], inputs[k - 1], mids[k - 1], apps[k]);
      match inputs[k - 1]
      case Message(ev, p, ios) =>
        HandleAttempts(apps[k - 1], ev, mids[k - 1]);
        OfferAttempts(mids[k - 1], ev, p, ios, apps[k]);
      case Reset(destLoad, filterLoad, io) =>
    }
  }

  /** In every run: the OS-open handles are exactly the defined ones, one per destination, none is misused, closed twice
      or leaked; every destination is properly open or properly closed; and every packet offered since the last reset
      of the counters is counted once. */
  lemma RunHandlesAndCounters(apps: seq<App>, mids: seq<App>, inputs: seq<Input>, k: nat)
    requires GoodRun(apps, mids, inputs) && k <= |inputs|
    ensures HandlesExact(apps[k].core.slots, apps[k].core.os)
    ensures Sum(apps[k].cnt) % U32 == OfferedSince(mids, inputs, k) % U32
    ensures forall i | 0 <= i < DEST_FILES :: apps[k].core.slots[i].handle.Some? ==> apps[k].dest.Some?
    ensures forall i | 0 <= i < DEST_FILES :: OpenOrClosed(apps[k].core.slots[i])
  {
    RunKeeps(apps, mids, inputs, k);
    AttemptsAreOffers(apps, mids, inputs, k);
    forall i | 0 <= i < DEST_FILES ensures OpenOrClosed(apps[k].core.slots[i]) {
      HeldBy(apps[k].core, i);
    }
  }

  /** An open file has a name with a directory, at least one packet and its true size; a closed destination has
      nothing. */
  ghost predicate OpenOrClosed(s: Slot) {
    if s.handle.Some? then SEPARATOR in s.name && s.packets != [] && s.size == |s.data| < U32
    else s.name == "" && s.age == 0 && s.size == 0
  }

  /** In every run: while the adds since the last build were good, no search or walk ever hangs; with the CDS handle
      good,
      the CDS mirrors counts and enable state. */
  lemma RunSearchesAndCds(apps: seq<App>, mids: seq<App>, inputs: seq<Input>, k: nat)
    requires GoodRun(apps, mids, inputs) && k <= |inputs|
    ensures Mirrored(apps[k].core)
    ensures apps[k].filter.None? || HashRuns.GoodAdds(apps[k].added) ==> forall id: MsgId :: CanFindEntry(apps[k], id)
    ensures apps[k].filter.Some? && HashRuns.GoodAdds(apps[k].added) ==>
              forall id: MsgId :: CanFind(apps[k], id) && Lookup(apps[k], id) == Scan(Mids(apps[k].filter.value), id)
    ensures apps[k].filter.Some? && !HashRuns.GoodAdds(apps[k].added) ==>
              exists b | 0 <= b < BUCKETS :: HashRuns.Stuck(apps[k].ix, Mids(apps[k].filter.value), b)
  {
    RunKeeps(apps, mids, inputs, k);
    var app := apps[k];
    if app.filter.None? || HashRuns.GoodAdds(app.added) {
      forall id: MsgId ensures CanFindEntry(app, id) {
        if app.filter.None? {
          NothingLoadedFindsNothing(app, id);
        } else {
          GoodAddsLookup(app, id);
        }
        LookupInRange(app, id);
      }
    }
    if app.filter.Some? && HashRuns.GoodAdds(app.added) {
      forall id: MsgId ensures CanFind(app, id) && Lookup(app, id) == Scan(Mids(app.filter.value), id) {
        GoodAddsLookup(app, id);
      }
    }
    if app.filter.Some? && !HashRuns.GoodAdds(app.added) {
      var b :| 0 <= b < BUCKETS && !Ends(app.ix.links, app.ix.heads[b]);
      forall id: MsgId | Hash(id) == b && id !in Mids(app.filter.value)
        ensures !SearchEnds(app.ix, Mids(app.filter.value), id)
      {
        AbsentSearchNeverEnds(app.ix, Mids(app.filter.value), id);
      }
      assert HashRuns.Stuck(app.ix, Mids(app.filter.value), b);
    }
  }

  /** In every run, right after every housekeeping request that DS accepts with a destination table loaded, no open
      file has
      reached the age limit that was in force when the request came. */
  lemma RunNoneOverAge(apps: seq<App>, mids: seq<App>, inputs: seq<Input>, k: nat)
    requires GoodRun(apps, mids, inputs) && k < |inputs|
    requires inputs[k].Message? && inputs[k].ev.HkRequest? && inputs[k].ev.wellFormed && apps[k].dest.Some?
    ensures forall i | 0 <= i < DEST_FILES ::
              var s, s', limit := apps[k].core.slots[i], mids[k].core.slots[i], apps[k].dest.value[i].maxAge;
              (s'.handle.Some? <==> Survives(s, limit)) && (s'.handle.Some? ==> s'.age == Older(s).age < limit)
  {
    hide AppInv, Housekeeping, StoreKept, Offer;
    RunKeeps(apps, mids, inputs, k);
    assert Next(apps[k], inputs[k], mids[k], apps[k + 1]) && InputKept(apps[k], mids[k], inputs[k]);
    var ev := inputs[k].ev;
    NoneOverAge(apps[k], ev.closes, ev.destLoad, ev.cdsOk, ev.filterLoad);
  }

  // ----- Restoring after a reset

  function TableCounts(t: DestTable): seq<nat> {
    seq(DEST_FILES, i requires 0 <= i < DEST_FILES => t[i].seqCount)
  }

  /** The destination table `t` comes into use, at start-up or at the first load after it. */
  ghost function StartWith(app: App, t: DestTable, atStart: bool, io: CdsIo): App {
    ManageDest(Restart(app, if atStart then Some(t) else None, None, io), if atStart then None else Some(t), true)
  }

  /** The counts with which DS then goes on: those of the CDS where they were restored on top of the table's. */
  function CountsAfter(t: DestTable, atStart: bool, io: CdsIo): seq<nat> {
    if atStart && io.Existing? && io.restored then io.counts else TableCounts(t)
  }

  /** A reset after which the CDS is restored brings back the counts if and only if the destination table is loaded at
      start-up and the CDS was up to date, or the table loaded later happens to hold the very same counts: a table loaded
      later overwrites them, and the CDS with them. The CDS is up to date whenever its handle is good. */
  lemma ResetRestoresIff(app: App, t: DestTable, atStart: bool, io: CdsIo)
    requires AppInv(app) && VerifyDestTable(t) && CdsKept(app.core, io)
    ensures Counts(StartWith(app, t, atStart, io).core.slots) == CountsAfter(t, atStart, io)
    ensures io.Existing? && io.restored && |app.core.cds.counts| == DEST_FILES ==>
              var core, core' := app.core, StartWith(app, t, atStart, io).core;
              && (Counts(core'.slots) == Counts(core.slots) <==>
                    if atStart then core.cds.counts == Counts(core.slots) else TableCounts(t) == Counts(core.slots))
              && core'.enabled == core.cds.enabled
              && core'.cds == Cds(true, Counts(core'.slots), core'.enabled)
    ensures app.core.cds.good ==>
              app.core.cds.counts == Counts(app.core.slots) && app.core.cds.enabled == app.core.enabled
  {
    var app1 := Restart(app, if atStart then Some(t) else None, None, io);
    assert Counts(LoadSlots(Zeroed(app.core).core.slots, t)) == TableCounts(t);
    if io.Existing? && io.restored {
      assert Counts(app1.core.slots) == io.counts;
    }
    if !atStart {
      assert Counts(LoadSlots(app1.core.slots, t)) == TableCounts(t);
    }
  }

  /** Where the CDS lags behind: a failed copy leaves the count from before the last file in it, and a reset that
      restores
      this count makes DS give the next file the last one's name. */
  lemma FailedCopyReusesName(core: Core, i: nat, e: Entry, io: CreateIo, clock: ClockText)
    requires CoreInv(core) && core.cds.good && i < DEST_FILES && e.nameType == BY_COUNT
    requires CreateReady(i, At(core, i), e, io)
    requires Nameable(e, core.slots[i].count, io.clock) && io.handle.Some? && HeadersWritten(io)
    ensures var w' := CreateDest(At(core, i), e, i, io);
            var core' := Put(core, i, w', false);
            && !core'.cds.good && core'.cds.counts[i] == core.slots[i].count
            && NameFor(e.parts, SequenceText(e.nameType, core'.cds.counts[i], clock)) == Some(w'.s.name)
  {
    CreateDestIs(i, At(core, i), e, io);
    var w' := CreateDest(At(core, i), e, i, io);
    CreatedName(i, At(core, i), w', e);
    assert core.cds.counts[i] == Counts(core.slots)[i] == core.slots[i].count;
  }

  lemma CreatedName(i: nat, w: World, w': World, e: Entry)
    requires Created(i, w, w', e) && e.nameType == BY_COUNT
    ensures CStr(e.parts.path) != [] && w'.s.name == ExactName(e.parts, Digits(w.s.count, SEQUENCE_DIGITS))
    ensures |w'.s.name| < PATH_SIZE
  {
    var m := Made(e.parts, w.s.count, w'.s.name);
    assert w'.s.made[|w.s.made|] == m && NamedByNumber(m);
  }

  // ----- Subscriptions

  /** DS is subscribed to its own messages and to the valid IDs of its table, and to nothing else. */
  ghost predicate SubscribedTo(subs: set<MsgId>, filter: Option<FilterTable>) {
    subs == OwnIds() + if filter.Some? then TableIds(filter.value) else {}
  }

  lemma LoadSubscribes(app: App, load: Option<FilterTable>)
    requires SubscribedTo(app.subs, app.filter)
    ensures SubscribedTo(ManageFilter(app, load).subs, ManageFilter(app, load).filter)
  {
  }

  lemma AddSubscribes(app: App, id: MsgId)
    requires AppInv(app) && CanAdd(app, id) && SubscribedTo(app.subs, app.filter)
    ensures SubscribedTo(AddMidCmd(app, id).subs, AddMidCmd(app, id).filter)
  {
    var app' := AddMidCmd(app, id);
    if app'.filter != app.filter {
      LookupInRange(app, INVALID_MSG_ID);
      var t, slot := app.filter.value, Lookup(app, INVALID_MSG_ID);
      assert t[slot].mid == INVALID_MSG_ID;
      IdsAfterChange(t, slot, ResetEntry(id));
    }
  }

  lemma IdsAfterChange(t: FilterTable, slot: nat, entry: PacketEntry)
    requires slot < ENTRIES
    ensures TableIds(t[slot := entry]) ==
            (set i | 0 <= i < ENTRIES && i != slot && HashRuns.IsValidMsgId(t[i].mid) :: t[i].mid) +
            if HashRuns.IsValidMsgId(entry.mid) then {entry.mid} else {}
  {
    var t' := t[slot := entry];
    var rest := set i | 0 <= i < ENTRIES && i != slot && HashRuns.IsValidMsgId(t[i].mid) :: t[i].mid;
    forall id | id in rest ensures id in TableIds(t') {
      var i :| 0 <= i < ENTRIES && i != slot && HashRuns.IsValidMsgId(t[i].mid) && t[i].mid == id;
      assert t'[i].mid == id;
    }
    assert HashRuns.IsValidMsgId(entry.mid) ==> t'[slot].mid in TableIds(t');
    forall id | id in TableIds(t') ensures id in rest || id == entry.mid {
      var i :| 0 <= i < ENTRIES && HashRuns.IsValidMsgId(t'[i].mid) && t'[i].mid == id;
      assert i != slot ==> t[i].mid == id;
    }
  }

  /** An accepted REMOVE MID keeps the subscriptions exact if and only if the ID is not one of DS's own and does not
      occur a second time in the table; otherwise DS stops receiving what it should still receive. */
  lemma {:induction false} RemoveSubscribesIff(app: App, id: MsgId)
    requires AppInv(app) && CanFindEntry(app, id) && SubscribedTo(app.subs, app.filter)
    requires HashRuns.IsValidMsgId(id) && app.filter.Some? && Lookup(app, id) != -1
    ensures SubscribedTo(RemoveMidCmd(app, id).subs, RemoveMidCmd(app, id).filter) <==>
            id !in OwnIds() && forall i | 0 <= i < ENTRIES && i != Lookup(app, id) :: app.filter.value[i].mid != id
  {
    LookupInRange(app, id);
    var t, slot := app.filter.value, Lookup(app, id);
    var t' := t[slot := ResetEntry(INVALID_MSG_ID)];
    IdsAfterChange(t, slot, ResetEntry(INVALID_MSG_ID));
    IdsAfterChange(t, slot, t[slot]);
    assert t[slot := t[slot]] == t && t[slot].mid == id;
    if exists i :: 0 <= i < ENTRIES && i != slot && t[i].mid == id {
      var i :| 0 <= i < ENTRIES && i != slot && t[i].mid == id;
      assert t'[i].mid in TableIds(t');
    }
  }

  /** An accepted REMOVE MID that `RemoveSubscribesIff` warns of. */
  ghost predicate HarmfulRemove(app: App, id: MsgId) {
    && HashRuns.IsValidMsgId(id) && app.filter.Some? && CanFindEntry(app, id) && Lookup(app, id) != -1
    && !(id !in OwnIds() && forall i | 0 <= i < ENTRIES && i != Lookup(app, id) :: app.filter.value[i].mid != id)
  }

  ghost predicate Harmful(app: App, input: Input) {
    input.Message? && input.ev.CommandMsg? && input.ev.cmd.RemoveMID? && HarmfulRemove(app, input.ev.cmd.id)
  }

  lemma ChangeSubscribes(app: App, id: MsgId, k: nat, valid: bool, change: Parms -> Parms)
    requires AppInv(app) && (app.filter.Some? ==> CanFindEntry(app, id)) && SubscribedTo(app.subs, app.filter)
    ensures SubscribedTo(ChangeFilter(app, id, k, valid, change).subs, ChangeFilter(app, id, k, valid, change).filter)
  {
    var app' := ChangeFilter(app, id, k, valid, change);
    if app'.filter != app.filter {
      assert Mids(app'.filter.value) == Mids(app.filter.value);
      SameIds(app.filter.value, app'.filter.value);
    }
  }

  lemma SameIds(t: FilterTable, t': FilterTable)
    requires Mids(t) == Mids(t')
    ensures TableIds(t) == TableIds(t')
  {
    assert forall i | 0 <= i < ENTRIES :: Mids(t)[i] == t[i].mid && Mids(t')[i] == t'[i].mid;
  }

  lemma CommandSubscribes(app: App, cmd: Command)
    requires AppInv(app) && CanApply(app, cmd) && SubscribedTo(app.subs, app.filter)
    requires cmd.RemoveMID? ==> !HarmfulRemove(app, cmd.id)
    ensures SubscribedTo(Apply(app, cmd).subs, Apply(app, cmd).filter)
  {
    match cmd
    case SetFilterFile(id, k, fileIndex) =>
      ChangeSubscribes(app, id, k, fileIndex < DEST_FILES, (f: Parms) => f.(fileIndex := fileIndex));
    case SetFilterType(id, k, filterType) =>
      ChangeSubscribes(app, id, k, VerifyType(filterType), (f: Parms) => f.(filterType := filterType));
    case SetFilterParms(id, k, n, x, o) =>
      ChangeSubscribes(app, id, k, VerifyParms(n, x, o), (f: Parms) => f.(n := n, x := x, o := o));
    case AddMID(id) => AddSubscribes(app, id);
    case RemoveMID(id) =>
      if HashRuns.IsValidMsgId(id) && app.filter.Some? && Lookup(app, id) != -1 {
        RemoveSubscribesIff(app, id);
      }
    case _ =>
  }

  /** In every run without a harmful REMOVE MID, DS stays subscribed to its own messages and the valid IDs of its
      filter table, and to nothing else. */
  lemma {:induction false} RunSubscribes(apps: seq<App>, mids: seq<App>, inputs: seq<Input>, k: nat)
    requires GoodRun(apps, mids, inputs) && k <= |inputs|
    requires forall j | 0 <= j < k :: !Harmful(apps[j], inputs[j])
    ensures SubscribedTo(apps[k].subs, apps[k].filter)
  {
    if k > 0 {
      RunSubscribes(apps, mids, inputs, k - 1);
      RunKeeps(apps, mids, inputs, k - 1);
      NextSubscribes(apps[k - 1], inputs[k - 1], mids[k - 1], apps[k]);
    }
  }

  lemma NextSubscribes(app: App, input: Input, mid: App, app': App)
    requires AppInv(app) && Next(app, input, mid, app') && SubscribedTo(app.subs, app.filter) && !Harmful(app, input)
    ensures SubscribedTo(app'.subs, app'.filter)
  {
    match input
    case Message(ev, p, ios) =>
      HandleSubscribes(app, ev, mid);
      OfferSubscribes(mid, ev, p, ios, app');
    case Reset(destLoad, filterLoad, io) =>
      var zeroed := Zeroed(app.core);
      LoadSubscribes(ManageDest(zeroed, destLoad, true), filterLoad);
  }

  lemma HandleSubscribes(app: App, ev: Event, mid: App)
    requires AppInv(app) && Handle(app, ev, mid) && SubscribedTo(app.subs, app.filter)
    requires ev.CommandMsg? && ev.cmd.RemoveMID? ==> !HarmfulRemove(app, ev.cmd.id)
    ensures SubscribedTo(mid.subs, mid.filter)
  {
    hide AppInv, SubscribedTo, AgeAll, Apply, HarmfulRemove, Build;
    match ev
    case Data =>
    case CommandMsg(cmd) => CommandSubscribes(app, cmd);
    case HkRequest(wellFormed, closes, destLoad, cdsOk, filterLoad) =>
      if wellFormed {
        var aged := if app.dest.Some? then app.(core := AgeAll(app.core, app.dest.value, closes, DEST_FILES)) else app;
        LoadSubscribes(ManageDest(aged, destLoad, cdsOk), filterLoad);
      }
    case Timeout(destLoad, cdsOk, filterLoad) => LoadSubscribes(ManageDest(app, destLoad, cdsOk), filterLoad);
  }

  lemma OfferSubscribes(mid: App, ev: Event, p: Packet, ios: StoreIos, app': App)
    requires Offer(mid, ev, p, ios, app')
    ensures app'.subs == mid.subs && app'.filter == mid.filter
  {
  }
}
