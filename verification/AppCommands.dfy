/** What each command, table load and offered packet does to the application data, field by field. */
module AppCommands {
  import opened HashChains
  import opened HashIndex
  import HashRuns
  import opened FilterAlgorithm
  import opened FileName
  import opened FileFormat
  import opened DestFile
  import opened DestFileProofs
  import opened App
  import opened AppCore
  import opened AppSteps

  /** Only the count of rejected commands changes. */
  ghost predicate OnlyRejected(app: App, app': App) {
    app' == app.(cnt := app.cnt.(rejected := (app.cnt.rejected + 1) % 256))
  }

  /** The command counts as accepted, and only the destination table, the destinations and the CDS may have changed. */
  ghost predicate AcceptedFor(app: App, app': App) {
    && app'.cnt == app.cnt.(accepted := (app.cnt.accepted + 1) % 256)
    && app' == app.(cnt := app'.cnt, core := app'.core, dest := app'.dest)
  }

  // ----- Counting packets

  lemma {:induction false} PassedIff(core: Core, dest: DestTable, filters: FilterList, p: Packet, ios: StoreIos, k: nat)
    requires k <= FILTERS
    ensures var (core', passed) := StoreFilters(core, dest, filters, p, ios, k);
            && (passed <==> exists j: nat, i: nat :: j < k && i < DEST_FILES && Takes(core.slots, filters[j], p, i))
            && (!passed ==> core' == core)
  {
    hide Takes, StoreOne;
    if k > 0 {
      PassedIff(core, dest, filters, p, ios, k - 1);
      var f, before := filters[k - 1], StoreFilters(core, dest, filters, p, ios, k - 1);
      forall i: nat | i < DEST_FILES
        ensures f.fileIndex == i && Selected(core.slots, f, p) <==> Takes(core.slots, f, p, i)
      {
        SelectedIff(core.slots, f, p, i);
      }
      if Selected(before.0.slots, f, p) {
        if !before.1 {
          assert Takes(core.slots, filters[k - 1], p, f.fileIndex);
        }
      }
    }
  }

  /** Some filter takes the packet for some destination. */
  ghost predicate Taken(slots: Slots, filters: FilterList, p: Packet) {
    exists j: nat, i: nat :: j < FILTERS && i < DEST_FILES && Takes(slots, filters[j], p, i)
  }

  /** Which of the four counters an offered packet raises: disabled while DS is disabled; ignored while a table is
      missing or the ID is in no entry; passed if a filter of its entry takes it; filtered otherwise. Without a taker
      nothing is written. */
  lemma StoreCounts(app: App, p: Packet, ios: StoreIos)
    requires CanStore(app, p)
    ensures var c, c' := app.cnt, StorePacket(app, p, ios).cnt;
            if app.core.enabled == 0 then
              c' == c.(disabled := (c.disabled + 1) % 0x1_0000_0000)
            else if app.filter.None? || app.dest.None? || Lookup(app, p.mid) == -1 then
              c' == c.(ignored := (c.ignored + 1) % 0x1_0000_0000)
            else if Taken(app.core.slots, app.filter.value[Lookup(app, p.mid)].filters, p) then
              c' == c.(passed := (c.passed + 1) % 0x1_0000_0000)
            else
              && c' == c.(filtered := (c.filtered + 1) % 0x1_0000_0000)
              && StorePacket(app, p, ios) == app.(cnt := c', attempts := app.attempts + 1)
    ensures StorePacket(app, p, ios) ==
              app.(cnt := StorePacket(app, p, ios).cnt, core := StorePacket(app, p, ios).core, attempts := app.attempts + 1)
    ensures app.core.enabled == 0 || app.filter.None? || app.dest.None? || Lookup(app, p.mid) == -1 ==>
              StorePacket(app, p, ios).core == app.core
  {
    hide StoreFilters, Takes, SearchEnds, Find;
    if Ready(app) && Lookup(app, p.mid) != -1 {
      PassedIff(app.core, app.dest.value, app.filter.value[Lookup(app, p.mid)].filters, p, ios, FILTERS);
    }
  }

  /** What one message comes to: one that is not DS's own only counts and is stored; one of DS's own is handled, and
      then stored if its ID is in an entry; without a message there is nothing to store. */
  lemma MessagesAre(app: App, ev: Event, mid: App, p: Packet, ios: StoreIos, app': App)
    requires Step(app, ev, mid, p, ios, app')
    ensures ev.Data? ==> CanStore(app, p) && app' == StorePacket(app, p, ios)
    ensures ev.Data? && app.core.enabled != 0 && (app.filter.None? || app.dest.None? || Lookup(app, p.mid) == -1) ==>
              app' == app.(cnt := app.cnt.(ignored := (app.cnt.ignored + 1) % 0x1_0000_0000), attempts := app.attempts + 1)
    ensures ev.CommandMsg? ==>
              && CanApply(app, ev.cmd) && CanFind(mid, p.mid)
              && if Lookup(mid, p.mid) == -1 then app' == Apply(app, ev.cmd)
                 else CanStore(Apply(app, ev.cmd), p) && app' == StorePacket(Apply(app, ev.cmd), p, ios)
    ensures ev.HkRequest? ==>
              && CanFind(mid, p.mid)
              && (Lookup(mid, p.mid) == -1 ==> app' == mid)
              && (Lookup(mid, p.mid) != -1 ==> CanStore(mid, p) && app' == StorePacket(mid, p, ios))
    ensures ev.Timeout? ==> app'.cnt == app.cnt && app'.attempts == app.attempts && app'.core.os == app.core.os
  {
    hide Apply, SearchEnds, Find, StoreFilters, Build, Housekeeping, VerifyDestTable, VerifyFilterTable;
    if ev.Data? && Ready(app) {
      StoreCounts(app, p, ios);
    }
  }

  // ----- ADD MID and REMOVE MID

  /** All four filters are unused, by count. */
  ghost predicate AllReset(e: PacketEntry) {
    forall k | 0 <= k < FILTERS ::
      var f := e.filters[k];
      f.fileIndex == 0 && f.filterType == 1 && f.n == 0 && f.x == 0 && f.o == 0
  }

  /** What one entry becomes; the others stay. */
  ghost predicate OneEntry(t: FilterTable, t': FilterTable, r: nat, id: MsgId) {
    && r < ENTRIES && t'[r].mid == id && AllReset(t'[r])
    && forall s | 0 <= s < ENTRIES && s != r :: t'[s] == t[s]
  }

  /** ADD MID, where its searches end: rejected for an ID that is 0, above 0x1FFF or found, and when no table is
      loaded or no entry is unused; otherwise the first unused entry gets the ID and four unused filters, and DS
      subscribes to the ID. */
  lemma AddMidIs(app: App, id: MsgId)
    requires AppInv(app) && CanAdd(app, id)
    ensures var app' := Apply(app, AddMID(id));
            if id == 0 || id > 0x1FFF || app.filter.None? || Lookup(app, id) != -1 || Lookup(app, 0) == -1 then
              OnlyRejected(app, app')
            else
              && app.filter.value[Lookup(app, 0)].mid == 0 && app'.filter.Some?
              && OneEntry(app.filter.value, app'.filter.value, Lookup(app, 0), id)
              && app'.subs == app.subs + {id}
              && app'.cnt == app.cnt.(accepted := (app.cnt.accepted + 1) % 256)
              && app'.core == app.core && app'.dest == app.dest && app'.attempts == app.attempts
  {
    hide CoreInv, DestInv, IndexInv, GoodFilters, SearchEnds, Find, Add, Accounted;
    if HashRuns.IsValidMsgId(id) && app.filter.Some? && Lookup(app, id) == -1 && Lookup(app, 0) != -1 {
      InRangeAndHeld(app, 0);
    }
  }

  lemma InRangeAndHeld(app: App, id: MsgId)
    requires AppInv(app) && CanFind(app, id) && Lookup(app, id) != -1 && app.filter.Some?
    ensures 0 <= Lookup(app, id) < ENTRIES && app.filter.value[Lookup(app, id)].mid == id
  {
    hide CoreInv, DestInv, GoodFilters, Accounted;
    LookupInRange(app, id);
  }

  /** REMOVE MID, where its search ends: rejected for an ID that is 0, above 0x1FFF or not found, and when no table is
      loaded; otherwise the entry becomes unused, with four unused filters, and DS unsubscribes from the ID. */
  lemma RemoveMidIs(app: App, id: MsgId)
    requires AppInv(app) && CanFindEntry(app, id)
    ensures var app' := Apply(app, RemoveMID(id));
            if id == 0 || id > 0x1FFF || app.filter.None? || Lookup(app, id) == -1 then OnlyRejected(app, app')
            else
              && app.filter.value[Lookup(app, id)].mid == id && app'.filter.Some?
              && OneEntry(app.filter.value, app'.filter.value, Lookup(app, id), 0)
              && app'.subs == app.subs - {id}
              && app'.cnt == app.cnt.(accepted := (app.cnt.accepted + 1) % 256)
              && app'.core == app.core && app'.dest == app.dest && app'.attempts == app.attempts
  {
    hide CoreInv, DestInv, IndexInv, GoodFilters, SearchEnds, Find, Build, Accounted;
    if HashRuns.IsValidMsgId(id) && app.filter.Some? && Lookup(app, id) != -1 {
      InRangeAndHeld(app, id);
    }
  }

  /** After an accepted ADD MID of an ID that no entry held, the search for it ends at its new entry, whatever else
      has become of the index. */
  lemma AddedIsFound(app: App, id: MsgId)
    requires AppInv(app) && CanAdd(app, id) && app.filter.Some? && id !in Mids(app.filter.value)
    requires 0 < id <= 0x1FFF && Lookup(app, id) == -1 && Lookup(app, 0) != -1
    ensures var app' := Apply(app, AddMID(id)); CanFindEntry(app', id) && Lookup(app', id) == Lookup(app, 0)
  {
    InRangeAndHeld(app, 0);
    var t, r := app.filter.value, Lookup(app, 0);
    var app' := Apply(app, AddMID(id));
    assert app'.ix == Add(app.ix, id, r) && app'.filter.value == t[r := ResetEntry(id)];
    AppendedIsFound(app.ix, Mids(t), Mids(app'.filter.value), id, r);
  }

  lemma AppendedIsFound(ix: Index, mids: Table, mids': Table, id: MsgId, r: nat)
    requires WellFormed(ix) && r < ENTRIES && Ends(ix.links, ix.heads[Hash(id)])
    requires id !in mids && mids'[r] == id && forall s | 0 <= s < ENTRIES && s != r :: mids'[s] == mids[s]
    requires forall j | 0 <= j < ENTRIES :: ix.links[j].index < ENTRIES
    ensures SearchEnds(Add(ix, id, r), mids', id) && Find(Add(ix, id, r), mids', id) == r
  {
    var ix', h := Add(ix, id, r), Hash(id);
    AddPointers(ix, id, r);
    var p := Chain(ix.links, ix.heads[h]);
    if p == [] {
      assert Walk(ix'.links, ix'.heads[h], [], To(r));
    } else {
      AppendReachesNewLink(ix, id, r, p);
    }
    StopsAtHit(ix', mids', id, p, r, r);
  }

  /** A walk that reaches link `q` of the only matching entry: the search ends there, or at an earlier link of the
      same entry. */
  lemma {:induction false} StopsAtHit(ix: Index, mids: Table, id: MsgId, p: seq<nat>, q: nat, r: nat)
    requires WellFormed(ix) && q < ENTRIES && r < ENTRIES && Walk(ix.links, ix.heads[Hash(id)], p, To(q))
    requires ix.links[q].index == r && forall s | 0 <= s < ENTRIES :: mids[s] == id <==> s == r
    ensures SearchEnds(ix, mids, id) && Find(ix, mids, id) == r
    decreases |p|
  {
    if exists k :: 0 <= k < |p| && Hit(ix, mids, p[k], id) {
      var k: nat :| k < |p| && Hit(ix, mids, p[k], id);
      WalkSplit(ix.links, ix.heads[Hash(id)], p, To(q), k);
      StopsAtHit(ix, mids, id, p[..k], p[k], r);
    } else {
      FindIs(ix, mids, id, p, To(q));
    }
  }

  /** A packet with an ID just added is found, matches no filter and is counted as filtered: nothing is written. */
  lemma AddedStoresNothing(app: App, id: MsgId, p: Packet, ios: StoreIos)
    requires AppInv(app) && CanAdd(app, id) && app.filter.Some? && id !in Mids(app.filter.value)
    requires 0 < id <= 0x1FFF && Lookup(app, id) == -1 && Lookup(app, 0) != -1
    requires app.core.enabled != 0 && app.dest.Some? && p.mid == id
    ensures var app' := Apply(app, AddMID(id));
            && CanStore(app', p)
            && StorePacket(app', p, ios) == app'.(cnt := app'.cnt.(filtered := (app'.cnt.filtered + 1) % 0x1_0000_0000),
                                                  attempts := app'.attempts + 1)
  {
    hide AppInv, CanAdd, SearchEnds, Find, StorePacket;
    var app' := Apply(app, AddMID(id));
    AddMidIs(app, id);
    AddedIsFound(app, id);
    NoneTakes(app'.core.slots, app'.filter.value[Lookup(app', id)], p);
    StoreCounts(app', p, ios);
  }

  lemma NoneTakes(slots: Slots, e: PacketEntry, p: Packet)
    requires AllReset(e)
    ensures !Taken(slots, e.filters, p)
  {
  }

  // ----- Filter commands

  /** One filter of the entry found for `id` becomes `f`, and the command counts as accepted. */
  ghost predicate FilterSet(app: App, app': App, id: MsgId, k: nat, f: Parms)
    requires CanFind(app, id)
  {
    && app.filter.Some? && 0 <= Lookup(app, id) < ENTRIES && k < FILTERS
    && var r := Lookup(app, id);
       app' == app.(filter := Some(app.filter.value[r := PacketEntry(app.filter.value[r].mid,
                                                                     app.filter.value[r].filters[k := f])]),
                    cnt := app.cnt.(accepted := (app.cnt.accepted + 1) % 256))
  }

  ghost predicate FilterRejected(app: App, id: MsgId, k: nat) {
    id == 0 || id > 0x1FFF || k >= 4 || app.filter.None? || (CanFind(app, id) && Lookup(app, id) == -1)
  }

  /** The three filter commands: which field each of them sets, and to what; rejected for a bad ID, filter number or
      value, without a table, or where no entry holds the ID. */
  lemma FilterCommandsAre(app: App, id: MsgId, k: nat, a: nat, n: nat, x: nat, o: nat)
    requires AppInv(app) && CanFindEntry(app, id)
    ensures var app' := Apply(app, SetFilterFile(id, k, a));
            if FilterRejected(app, id, k) || a >= 16 then OnlyRejected(app, app')
            else var f := app.filter.value[Lookup(app, id)].filters[k];
                 FilterSet(app, app', id, k, Parms(a, f.filterType, f.n, f.x, f.o))
    ensures var app' := Apply(app, SetFilterType(id, k, a));
            if FilterRejected(app, id, k) || (a != 1 && a != 2) then OnlyRejected(app, app')
            else var f := app.filter.value[Lookup(app, id)].filters[k];
                 FilterSet(app, app', id, k, Parms(f.fileIndex, a, f.n, f.x, f.o))
    ensures var app' := Apply(app, SetFilterParms(id, k, n, x, o));
            if FilterRejected(app, id, k) || !((n <= x && o < x) || (n == 0 && x == 0 && o == 0)) then
              OnlyRejected(app, app')
            else var f := app.filter.value[Lookup(app, id)].filters[k];
                 FilterSet(app, app', id, k, Parms(f.fileIndex, f.filterType, n, x, o))
  {
    hide AppInv, SearchEnds, Find;
  }

  // ----- Destination commands

  /** SET DEST TYPE, SIZE and AGE: which field of entry `i` each of them sets, and to what; rejected for a bad index
      or value, or without a table. */
  lemma ValueCommandsAre(app: App, i: nat, v: nat, limit: Word32)
    ensures var app' := Apply(app, SetDestType(i, v));
            if i >= 16 || app.dest.None? || (v != 1 && v != 2) then OnlyRejected(app, app')
            else AcceptedFor(app, app') && app'.core == app.core
                 && app'.dest == Some(app.dest.value[i := app.dest.value[i].(nameType := v)])
    ensures var app' := Apply(app, SetDestSize(i, limit));
            if i >= 16 || app.dest.None? || limit < 1024 then OnlyRejected(app, app')
            else AcceptedFor(app, app') && app'.core == app.core
                 && app'.dest == Some(app.dest.value[i := app.dest.value[i].(maxSize := limit)])
    ensures var app' := Apply(app, SetDestAge(i, limit));
            if i >= 16 || app.dest.None? || limit < 60 then OnlyRejected(app, app')
            else AcceptedFor(app, app') && app'.core == app.core
                 && app'.dest == Some(app.dest.value[i := app.dest.value[i].(maxAge := limit)])
  {
    hide Refill;
  }

  /** SET DEST PATH changes the path of entry `i` and nothing else. */
  lemma SetDestPathIs(app: App, i: nat, text: seq<char>)
    ensures var app' := Apply(app, SetDestPath(i, text));
            if i >= 16 || app.dest.None? then OnlyRejected(app, app')
            else AcceptedFor(app, app') && app'.core == app.core && OnePart(app.dest.value, app'.dest, i)
                 && PartIs(app'.dest.value[i].parts.path, text)
                 && app'.dest.value[i].parts == app.dest.value[i].parts.(path := app'.dest.value[i].parts.path)
  {
    hide Refill;
    if i < DEST_FILES && app.dest.Some? {
      RefillHolds(app.dest.value[i].parts.path, text);
    }
  }

  /** SET DEST BASE changes the base of entry `i` and nothing else. */
  lemma SetDestBaseIs(app: App, i: nat, text: seq<char>)
    ensures var app' := Apply(app, SetDestBase(i, text));
            if i >= 16 || app.dest.None? then OnlyRejected(app, app')
            else AcceptedFor(app, app') && app'.core == app.core && OnePart(app.dest.value, app'.dest, i)
                 && PartIs(app'.dest.value[i].parts.base, text)
                 && app'.dest.value[i].parts == app.dest.value[i].parts.(base := app'.dest.value[i].parts.base)
  {
    hide Refill;
    if i < DEST_FILES && app.dest.Some? {
      RefillHolds(app.dest.value[i].parts.base, text);
    }
  }

  /** SET DEST EXT changes the ext of entry `i` and nothing else. */
  lemma SetDestExtIs(app: App, i: nat, text: seq<char>)
    ensures var app' := Apply(app, SetDestExt(i, text));
            if i >= 16 || app.dest.None? then OnlyRejected(app, app')
            else AcceptedFor(app, app') && app'.core == app.core && OnePart(app.dest.value, app'.dest, i)
                 && PartIs(app'.dest.value[i].parts.ext, text)
                 && app'.dest.value[i].parts == app.dest.value[i].parts.(ext := app'.dest.value[i].parts.ext)
  {
    hide Refill;
    if i < DEST_FILES && app.dest.Some? {
      RefillHolds(app.dest.value[i].parts.ext, text);
    }
  }

  /** The field holds the command's string, cut to what fits before its terminator. */
  predicate PartIs(field: seq<char>, text: seq<char>)
    requires |field| > 0
  {
    CStr(field) == if |CStr(text)| < |field| then CStr(text) else CStr(text)[..|field| - 1]
  }

  /** Of the table only the name parts of entry `i` may have changed. */
  ghost predicate OnePart(t: DestTable, dest': Option<DestTable>, i: nat)
    requires i < DEST_FILES
  {
    dest'.Some? && dest'.value == t[i := t[i].(parts := dest'.value[i].parts)]
  }

  /** SET DEST STATE and SET DEST COUNT change the table entry and the destination alike. */
  lemma StatusCommandsAre(app: App, i: nat, v: nat, cdsOk: bool)
    ensures var app' := Apply(app, SetDestState(i, v));
            if i >= 16 || app.dest.None? || v > 1 then OnlyRejected(app, app')
            else AcceptedFor(app, app')
                 && app'.dest == Some(app.dest.value[i := app.dest.value[i].(enableState := v)])
                 && app'.core == app.core.(slots := app.core.slots[i := app.core.slots[i].(state := v)])
    ensures var app' := Apply(app, SetDestCount(i, v, cdsOk));
            if i >= 16 || app.dest.None? || v > 99_999_999 then OnlyRejected(app, app')
            else AcceptedFor(app, app')
                 && app'.dest == Some(app.dest.value[i := app.dest.value[i].(seqCount := v)])
                 && app'.core == app.core.(slots := app.core.slots[i := app.core.slots[i].(count := v)],
                                           cds := app'.core.cds)
  {
    hide Counts;
  }

  /** CLOSE FILE closes destination `i` and no other; CLOSE ALL closes every one. */
  lemma CloseCommandsAre(app: App, i: nat, io: CloseOutcome, ios: CloseIos)
    requires AppInv(app) && |io.update.time| == TIME_SIZE && TimesOk(ios)
    ensures var app' := Apply(app, CloseFile(i, io));
            if i >= 16 then OnlyRejected(app, app')
            else AcceptedFor(app, app') && app'.dest == app.dest && app'.core.slots[i].handle.None?
                 && (forall j | 0 <= j < DEST_FILES && j != i :: app'.core.slots[j] == app.core.slots[j])
                 && Stored(app'.core.slots[i]) == Stored(app.core.slots[i])
    ensures var app' := Apply(app, CloseAllFiles(ios));
            AcceptedFor(app, app') && app'.dest == app.dest && AllClosed(app'.core.slots, 16)
  {
    hide CoreInv, DestInv, CloseOne, CloseAll, TimesOk, GoodFilters, IndexInv, Accounted;
    if i < DEST_FILES {
      CloseOneKeeps(app.core, app.dest, i, io);
    }
    CloseAllKeeps(app.core, app.dest, ios, DEST_FILES);
  }

  // ----- The other commands

  /** SET APP STATE takes 0 and 1; RESET clears all counters; NOOP and GET FILE INFO only count; anything malformed is
      rejected. */
  lemma OtherCommandsAre(app: App, v: nat, cdsOk: bool)
    ensures var app' := Apply(app, SetAppState(v, cdsOk));
            if v > 1 then OnlyRejected(app, app')
            else AcceptedFor(app, app') && app'.dest == app.dest
                 && app'.core == app.core.(enabled := v, cds := app'.core.cds)
    ensures var app' := Apply(app, ResetCounters);
            app' == app.(cnt := app'.cnt, attempts := 0) && app'.cnt == Counters(0, 0, 0, 0, 0, 0)
    ensures OnlyRejected(app, Apply(app, Malformed))
    ensures AcceptedFor(app, Apply(app, Noop)) && Apply(app, Noop).core == app.core && Apply(app, Noop).dest == app.dest
    ensures Apply(app, GetFileInfo) == Apply(app, Noop)
  {
  }

  // ----- Table loads, housekeeping and start-up

  predicate AllZero(b: seq<char>) {
    forall k | 0 <= k < |b| :: b[k] == '\0'
  }

  /** What validation accepts for one destination: an entry that is zero throughout, or one with a name type 1 or 2, a
      state 0 or 1, a size limit from 1024, an age limit from 60 and a count up to 99999999. */
  predicate GoodDest(e: Entry) {
    || (&& AllZero(e.movename) && AllZero(e.parts.path) && AllZero(e.parts.base) && AllZero(e.parts.ext)
        && e.nameType == 0 && e.enableState == 0 && e.maxSize == 0 && e.maxAge == 0 && e.seqCount == 0)
    || (&& 1 <= e.nameType <= 2 && e.enableState <= 1 && e.maxSize >= 1024 && e.maxAge >= 60
        && e.seqCount <= 99_999_999)
  }

  lemma GoodDestIff(e: Entry)
    ensures VerifyDestEntry(e) <==> GoodDest(e)
  {
    var z := BlankEntry();
    assert AllZero(e.movename) ==> e.movename == z.movename;
    assert AllZero(e.parts.path) ==> e.parts.path == z.parts.path;
    assert AllZero(e.parts.base) ==> e.parts.base == z.parts.base;
    assert AllZero(e.parts.ext) ==> e.parts.ext == z.parts.ext;
  }

  predicate GoodDests(load: Option<DestTable>) {
    load.Some? && forall i | 0 <= i < DEST_FILES :: GoodDest(load.value[i])
  }

  /** A destination table comes into use if and only if all its entries pass; then every destination takes state and
      count from its entry, and its open file, if any, stays open. */
  lemma DestLoadIs(app: App, load: Option<DestTable>, cdsOk: bool)
    ensures var app' := ManageDest(app, load, cdsOk);
            if GoodDests(load) then
              && app' == app.(dest := load, core := app'.core)
              && app'.core == app.core.(slots := app'.core.slots, cds := app'.core.cds)
              && forall i | 0 <= i < DEST_FILES ::
                   app'.core.slots[i] ==
                   app.core.slots[i].(state := load.value[i].enableState, count := load.value[i].seqCount)
            else app' == app
  {
    hide VerifyDestEntry, GoodDest, Counts;
    if load.Some? {
      forall i | 0 <= i < DEST_FILES ensures VerifyDestEntry(load.value[i]) <==> GoodDest(load.value[i]) {
        GoodDestIff(load.value[i]);
      }
    }
  }

  /** What validation accepts for one filter: one that is zero throughout, or one with a file index below 16, a type 1
      or 2, and either N, X and O all 0 or N <= X and O < X. */
  predicate ValidFilter(f: Parms) {
    || f == Parms(0, 0, 0, 0, 0)
    || (&& f.fileIndex < 16 && 1 <= f.filterType <= 2
        && ((f.n == 0 && f.x == 0 && f.o == 0) || (f.n <= f.x && f.o < f.x)))
  }

  predicate ValidFilters(load: Option<FilterTable>) {
    && load.Some?
    && forall i, k | 0 <= i < ENTRIES && 0 <= k < FILTERS ::
         0 < load.value[i].mid <= 0x1FFF ==> ValidFilter(load.value[i].filters[k])
  }

  /** A filter table comes into use if and only if the filters of all its valid IDs pass. */
  lemma FilterLoadIs(app: App, load: Option<FilterTable>)
    ensures var app' := ManageFilter(app, load);
            if ValidFilters(load) then app' == app.(filter := load, ix := app'.ix, added := [], subs := app'.subs)
            else app' == app
  {
    hide Build;
    assert forall f: Parms :: VerifyFilter(f) <==> ValidFilter(f);
  }

  /** A state whose tables are those of `app`, unless the loads bring good ones. */
  ghost predicate TablesAfter(app: App, destLoad: Option<DestTable>, filterLoad: Option<FilterTable>, app': App) {
    && app'.dest == (if GoodDests(destLoad) then destLoad else app.dest)
    && app'.filter == (if ValidFilters(filterLoad) then filterLoad else app.filter)
  }

  lemma BothLoads(app: App, destLoad: Option<DestTable>, cdsOk: bool, filterLoad: Option<FilterTable>)
    ensures var app' := ManageFilter(ManageDest(app, destLoad, cdsOk), filterLoad);
            && TablesAfter(app, destLoad, filterLoad, app')
            && app'.cnt == app.cnt && app'.attempts == app.attempts && app'.core.os == app.core.os
            && app'.core.enabled == app.core.enabled
  {
    hide GoodDests, ValidFilters, ManageDest, ManageFilter;
    DestLoadIs(app, destLoad, cdsOk);
    FilterLoadIs(ManageDest(app, destLoad, cdsOk), filterLoad);
  }

  /** Tables are loaded with a housekeeping request, and when no message comes, which changes nothing but what the
      loads bring. */
  lemma LoadsHappen(app: App, ios: CloseIos, destLoad: Option<DestTable>, cdsOk: bool, filterLoad: Option<FilterTable>)
    ensures forall mid | Handle(app, HkRequest(true, ios, destLoad, cdsOk, filterLoad), mid) ::
              TablesAfter(app, destLoad, filterLoad, mid)
    ensures forall mid | Handle(app, Timeout(destLoad, cdsOk, filterLoad), mid) ::
              && TablesAfter(app, destLoad, filterLoad, mid)
              && mid.cnt == app.cnt && mid.attempts == app.attempts && mid.core.os == app.core.os
              && mid.core.enabled == app.core.enabled
  {
    hide GoodDests, ValidFilters, ManageDest, ManageFilter, AgeAll, Rates;
    BothLoads(app, destLoad, cdsOk, filterLoad);
    if app.dest.Some? {
      BothLoads(app.(core := AgeAll(app.core, app.dest.value, ios, DEST_FILES)), destLoad, cdsOk, filterLoad);
    }
  }

  /** At start-up there is no table but what the loads bring. */
  lemma StartLoads(app: App, destLoad: Option<DestTable>, filterLoad: Option<FilterTable>, io: CdsIo)
    ensures var app' := Restart(app, destLoad, filterLoad, io);
            && app'.dest == (if GoodDests(destLoad) then destLoad else None)
            && app'.filter == (if ValidFilters(filterLoad) then filterLoad else None)
  {
    hide GoodDests, ValidFilters, ManageDest, ManageFilter, CreateCds;
    BothLoads(Zeroed(app.core), destLoad, true, filterLoad);
  }

  lemma {:induction false} AgeKeepsGrowth(core: Core, dest: DestTable, ios: CloseIos, k: nat, i: nat)
    requires k <= DEST_FILES && i < DEST_FILES
    ensures AgeAll(core, dest, ios, k).slots[i].growth == core.slots[i].growth
  {
    hide MoveTarget;
    if k > 0 {
      AgeKeepsGrowth(core, dest, ios, k - 1, i);
    }
  }

  /** Housekeeping turns the bytes a destination has grown by into its rate per second, and starts counting again. */
  lemma RatesAre(app: App, ios: CloseIos, destLoad: Option<DestTable>, cdsOk: bool, filterLoad: Option<FilterTable>)
    ensures var app' := Housekeeping(app, ios, destLoad, cdsOk, filterLoad);
            forall i | 0 <= i < DEST_FILES ::
              app'.core.slots[i].rate == app.core.slots[i].growth / 4 && app'.core.slots[i].growth == 0
    ensures forall mid | Handle(app, HkRequest(false, ios, destLoad, cdsOk, filterLoad), mid) :: OnlyRejected(app, mid)
  {
    hide AgeAll, Build;
    forall i | 0 <= i < DEST_FILES
      ensures var s := Housekeeping(app, ios, destLoad, cdsOk, filterLoad).core.slots[i];
              s.rate == app.core.slots[i].growth / 4 && s.growth == 0
    {
      if app.dest.Some? {
        AgeKeepsGrowth(app.core, app.dest.value, ios, DEST_FILES, i);
      }
    }
  }

  /** What a file that gets its headers and first packet makes of the destination's status. */
  lemma NewFileStatus(w: World, e: Entry, i: nat, p: Bytes, io: SetupIo)
    requires io.write.written == |p| && HeadersWritten(io.create) && io.create.handle.Some?
    requires Nameable(e, w.s.count, io.create.clock)
    ensures var s' := NewFile(w, e, i, p, io).s;
            && s'.growth == (((w.s.growth + 64) % U32 + 76) % U32 + |p|) % U32
            && s'.count == (if e.nameType != 1 then w.s.count
                            else if w.s.count < 99_999_999 then w.s.count + 1
                            else e.seqCount)
            && NameFor(e.parts, SequenceText(e.nameType, w.s.count, io.create.clock)) == Some(s'.name)
  {
    hide Overlay, Prefix, DsHeader, NameBytes, NameFor, SequenceText, CloseDest;
    var text := SequenceText(e.nameType, w.s.count, io.create.clock);
    NameForIsUsable(e.parts, text);
  }

  lemma WrapOnce(a: nat, n: nat)
    ensures (a % U32 + n) % U32 == (a + n) % U32
  {
    var q, r := a / U32, a % U32 + n;
    assert a == U32 * q + a % U32 && r == U32 * (r / U32) + r % U32;
    assert a + n == U32 * (q + r / U32) + r % U32;
  }

  lemma GrowthAdds(g: nat, n: nat)
    ensures (((g + 64) % U32 + 76) % U32 + n) % U32 == (g + 140 + n) % U32
  {
    WrapOnce(g + 64, 76);
    WrapOnce(g + 64 + 76, n);
  }

  /** A stored packet makes its destination grow by its size. If it needs a new file, that comes with 140 bytes of
      headers, and is named by the eight digits of the count, which goes up by one, and from 99999999 to the table's
      count; or by the time; or by neither, for an entry without a name type. */
  lemma StoredStatusIs(w: World, e: Entry, i: nat, p: Bytes, io: SetupIo)
    requires Succeeds(w.s, e, p, io)
    ensures var s' := SetupWrite(w, e, i, p, io).s;
            if w.s.handle.Some? && w.s.size + |p| <= e.maxSize then
              s'.growth == (w.s.growth + |p|) % 0x1_0000_0000 && s'.count == w.s.count && s'.name == w.s.name
            else
              && s'.growth == (w.s.growth + 140 + |p|) % 0x1_0000_0000
              && (if e.nameType == 1 then
                    && NameFor(e.parts, Digits(w.s.count, 8)) == Some(s'.name)
                    && s'.count == if w.s.count < 99_999_999 then w.s.count + 1 else e.seqCount
                  else
                    && NameFor(e.parts, if e.nameType == 2 then TimeText(io.create.clock) else "") == Some(s'.name)
                    && s'.count == w.s.count)
  {
    hide Overlay, Prefix, NewFile, Nameable, MoveTarget, NameFor;
    var w0 := if w.s.handle.None? then w else CloseDest(UpdateHeader(w, io.update), e, io.close);
    if w.s.handle.None? || w.s.size + |p| > e.maxSize {
      NewFileStatus(w0, e, i, p, io);
      GrowthAdds(w.s.growth, |p|);
    }
  }

  /** The CDS area at start-up: usable if it was created and could be filled, or existed and could be read; it then
      holds the counts and the enable state that DS has. */
  lemma StartCdsIs(app: App, destLoad: Option<DestTable>, filterLoad: Option<FilterTable>, io: CdsIo)
    requires CdsKept(app.core, io)
    ensures var core' := Restart(app, destLoad, filterLoad, io).core;
            && (core'.cds.good <==> (io.NewArea? && io.copied) || (io.Existing? && io.restored))
            && (core'.cds.good ==>
                  && core'.cds.enabled == core'.enabled && |core'.cds.counts| == 16
                  && forall i | 0 <= i < DEST_FILES :: core'.cds.counts[i] == core'.slots[i].count)
  {
    hide Build, VerifyDestEntry, VerifyFilter, TableIds;
  }

  /** The table has the ID in an entry, and it is a valid one other than DS's own. */
  ghost predicate Wants(filter: Option<FilterTable>, id: MsgId) {
    && filter.Some? && 0 < id <= 0x1FFF && id != 0x18BB && id != 0x18BC
    && exists i :: 0 <= i < ENTRIES && filter.value[i].mid == id
  }

  /** What DS is subscribed to after a filter table load: the IDs that the new table wants, and of what it was
      subscribed to all but what the old one wanted. */
  lemma LoadSubscriptionsAre(app: App, load: Option<FilterTable>, id: MsgId)
    requires load.Some? && VerifyFilterTable(load.value)
    ensures id in ManageFilter(app, load).subs <==> Wants(load, id) || (id in app.subs && !Wants(app.filter, id))
  {
    hide Build, VerifyFilterTable;
    assert Wants(load, id) <==> id in TableIds(load.value) - OwnIds();
    assert app.filter.Some? ==> (Wants(app.filter, id) <==> id in TableIds(app.filter.value) - OwnIds());
  }

  /** Start-up clears counters and handles, subscribes to DS's own messages and those of the table, enables DS unless
      the CDS says otherwise, and leaves every destination idle with the table's state, or disabled if none is loaded. */
  lemma StartIs(app: App, destLoad: Option<DestTable>, filterLoad: Option<FilterTable>, io: CdsIo)
    requires CdsKept(app.core, io)
    ensures var app' := Restart(app, destLoad, filterLoad, io);
            && app'.cnt == Counters(0, 0, 0, 0, 0, 0) && app'.core.os == Os({}, false, app.core.os.ops)
            && app'.core.enabled == (if io.Existing? && io.restored then io.enabled else 1)
            && forall i | 0 <= i < DEST_FILES ::
                 var s' := app'.core.slots[i];
                 && s'.handle.None? && s'.name == "" && s'.age == 0 && s'.size == 0 && s'.growth == 0 && s'.rate == 0
                 && s'.state == (if app'.dest.Some? then app'.dest.value[i].enableState else 0)
                 && s'.count == if io.Existing? && io.restored then io.counts[i]
                                else if app'.dest.Some? then app'.dest.value[i].seqCount else 0
  {
    hide Build, Counts, VerifyDestEntry, VerifyFilter, TableIds;
  }
}
