/** The DS application as one state machine: each step is one software bus message, or the
    one-second timeout of the main loop. OS, cFE and CDS outcomes are arguments of the step. */
module App {
  import opened HashChains
  import opened HashIndex
  import opened HashRuns
  import opened FilterAlgorithm
  import opened FileName
  import opened FileFormat
  import opened DestFile

  const DEST_FILES: nat := 16       // DS_DEST_FILE_CNT
  const FILTERS: nat := 4           // DS_FILTERS_PER_PACKET
  const CMD_MID: MsgId := 0x18BB
  const SEND_HK_MID: MsgId := 0x18BC
  const MIN_SIZE_LIMIT: nat := 1024
  const MIN_AGE_LIMIT: nat := 60

  // ----- Tables and status arrays

  const UNUSED_FILTER: Parms := Parms(0, 0, 0, 0, 0)
  const RESET_FILTER: Parms := Parms(0, BY_COUNT, 0, 0, 0)

  type FilterList = l: seq<Parms> | |l| == FILTERS
    witness [UNUSED_FILTER, UNUSED_FILTER, UNUSED_FILTER, UNUSED_FILTER]

  /** An entry of the packet filter table. */
  datatype PacketEntry = PacketEntry(mid: MsgId, filters: FilterList)

  function ResetEntry(id: MsgId): PacketEntry {
    PacketEntry(id, [RESET_FILTER, RESET_FILTER, RESET_FILTER, RESET_FILTER])
  }

  type FilterTable = t: seq<PacketEntry> | |t| == ENTRIES witness seq(ENTRIES, i => ResetEntry(INVALID_MSG_ID))

  function BlankBuffer(): PathBuffer {
    seq(PATH_SIZE, i => NUL)
  }

  function BlankEntry(): Entry {
    Entry(BlankBuffer(), NameParts(BlankBuffer(), BlankBuffer(), seq(EXT_SIZE, i => NUL)), 0, 0, 0, 0, 0)
  }

  type DestTable = t: seq<Entry> | |t| == DEST_FILES witness seq(DEST_FILES, i => BlankEntry())

  /** A destination that has been idle since power-on. */
  function ZeroSlot(): Slot {
    Slot(None, 0, 0, 0, 0, 0, DISABLED, "", [], 0, 0, [], Header(0, 0, []), [], [], 0)
  }

  type Slots = t: seq<Slot> | |t| == DEST_FILES witness seq(DEST_FILES, i => ZeroSlot())

  /** The Critical Data Store area: whether its handle is good, and what the last good copy put there, no counts
      if there was none. */
  datatype Cds = Cds(good: bool, counts: seq<nat>, enabled: nat)

  /** What file handling works on. */
  datatype Core = Core(slots: Slots, os: Os, cds: Cds, enabled: nat)

  /** Command counters are 8 bits wide, packet counters 32 bits. */
  datatype Counters = Counters(accepted: nat, rejected: nat, disabled: nat, ignored: nat, filtered: nat, passed: nat)

  /** `added` and `attempts` are history: buckets added to since the index was last built, and packets offered
      for storage since the counters were last reset. */
  datatype App = App(core: Core, dest: Option<DestTable>, filter: Option<FilterTable>, ix: Index,
                     added: seq<nat>, cnt: Counters, subs: set<MsgId>, attempts: nat)

  // ----- Table validation

  /** `DS_TableVerifyParms`. */
  predicate VerifyParms(n: nat, x: nat, o: nat) {
    if n != 0 || x != 0 || o != 0 then n <= x && o < x else true
  }

  predicate VerifyType(t: nat) {
    t == BY_COUNT || t == BY_TIME
  }

  predicate VerifyState(v: nat) {
    v == ENABLED || v == DISABLED
  }

  predicate VerifyFilter(f: Parms) {
    f == UNUSED_FILTER || (f.fileIndex < DEST_FILES && VerifyType(f.filterType) && VerifyParms(f.n, f.x, f.o))
  }

  /** `DS_TableVerifyFilter`: entries without a valid ID count as unused and are not looked into. */
  predicate VerifyFilterTable(t: FilterTable) {
    forall i, k | 0 <= i < ENTRIES && 0 <= k < FILTERS :: IsValidMsgId(t[i].mid) ==> VerifyFilter(t[i].filters[k])
  }

  /** `DS_TableVerifyDestFile`; an all-zero entry is unused. */
  predicate VerifyDestEntry(e: Entry) {
    || e == BlankEntry()
    || (&& VerifyType(e.nameType) && VerifyState(e.enableState) && e.maxSize >= MIN_SIZE_LIMIT
        && e.maxAge >= MIN_AGE_LIMIT && e.seqCount <= MAX_SEQUENCE_COUNT)
  }

  predicate VerifyDestTable(t: DestTable) {
    forall i | 0 <= i < DEST_FILES :: VerifyDestEntry(t[i])
  }

  // ----- Critical Data Store

  function Counts(slots: Slots): seq<nat> {
    seq(DEST_FILES, i requires 0 <= i < DEST_FILES => slots[i].count)
  }

  /** `DS_TableUpdateCDS`; `ok` is the outcome of the copy. */
  function UpdateCds(core: Core, ok: bool): Core {
    if !core.cds.good then core
    else if ok then core.(cds := Cds(true, Counts(core.slots), core.enabled))
    else core.(cds := core.cds.(good := false))
  }

  // ----- One destination within the application

  function At(core: Core, i: nat): World
    requires i < DEST_FILES
  {
    World(core.slots[i], core.os, false)
  }

  function Put(core: Core, i: nat, w: World, cdsOk: bool): Core
    requires i < DEST_FILES
  {
    var core' := core.(slots := core.slots[i := w.s], os := w.os);
    if w.synced then UpdateCds(core', cdsOk) else core'
  }

  // ----- Storing a packet

  datatype StoreIo = StoreIo(setup: SetupIo, cdsOk: bool)

  type StoreIos = l: seq<StoreIo> | |l| == FILTERS ghost witness
    var io := StoreIo(SetupIo(UpdateIo(false, [], 0), CloseIo(false),
                              CreateIo(None, "1980-001-00:00:00.00000", [], 0, 0, CloseIo(false)),
                              WriteIo(0, CloseIo(false))), true);
    [io, io, io, io]

  /** This filter sends the packet to its destination. */
  predicate Selected(slots: Slots, f: Parms, p: Packet) {
    f.n != 0 && f.fileIndex < DEST_FILES && slots[f.fileIndex].state == ENABLED && !IsPacketFiltered(p, f)
  }

  function StoreOne(core: Core, dest: DestTable, i: nat, p: Packet, io: StoreIo): Core
    requires i < DEST_FILES
  {
    Put(core, i, SetupWrite(At(core, i), dest[i], i, p.bytes, io.setup), io.cdsOk)
  }

  /** The loop of `DS_FileStorePacket` over the first `k` filters, and whether any of them passed the packet. */
  function StoreFilters(core: Core, dest: DestTable, filters: FilterList, p: Packet, ios: StoreIos, k: nat): (Core, bool)
    requires k <= FILTERS
  {
    if k == 0 then (core, false)
    else
      var (before, passed) := StoreFilters(core, dest, filters, p, ios, k - 1);
      var f := filters[k - 1];
      if Selected(before.slots, f, p) then (StoreOne(before, dest, f.fileIndex, p, ios[k - 1]), true)
      else (before, passed)
  }

  function Mids(t: FilterTable): Table {
    seq(ENTRIES, i requires 0 <= i < ENTRIES => t[i].mid)
  }

  /** The IDs that searches compare with; with no table loaded none is ever compared. */
  function MidsOf(filter: Option<FilterTable>): Table {
    if filter.Some? then Mids(filter.value) else seq(ENTRIES, i => INVALID_MSG_ID)
  }

  /** The search for `id` ends. */
  ghost predicate CanFind(app: App, id: MsgId) {
    SearchEnds(app.ix, MidsOf(app.filter), id)
  }

  ghost function Lookup(app: App, id: MsgId): int
    requires CanFind(app, id)
  {
    Find(app.ix, MidsOf(app.filter), id)
  }

  predicate Ready(app: App) {
    app.core.enabled != DISABLED && app.filter.Some? && app.dest.Some?
  }

  function CountDisabled(app: App): App {
    app.(cnt := app.cnt.(disabled := (app.cnt.disabled + 1) % U32))
  }

  function CountIgnored(app: App): App {
    app.(cnt := app.cnt.(ignored := (app.cnt.ignored + 1) % U32))
  }

  function CountOutcome(app: App, passed: bool): App {
    if passed then app.(cnt := app.cnt.(passed := (app.cnt.passed + 1) % U32))
    else app.(cnt := app.cnt.(filtered := (app.cnt.filtered + 1) % U32))
  }

  ghost predicate CanStore(app: App, p: Packet) {
    Ready(app) ==> CanFind(app, p.mid) && -1 <= Lookup(app, p.mid) < ENTRIES
  }

  /** `DS_AppStorePacket` and `DS_FileStorePacket`. */
  ghost function StorePacket(app: App, p: Packet, ios: StoreIos): App
    requires CanStore(app, p)
  {
    var offered := app.(attempts := app.attempts + 1);
    if app.core.enabled == DISABLED then CountDisabled(offered)
    else if !Ready(app) then CountIgnored(offered)
    else
      var r := Lookup(app, p.mid);
      if r == -1 then CountIgnored(offered)
      else
        var (core, passed) := StoreFilters(app.core, app.dest.value, app.filter.value[r].filters, p, ios, FILTERS);
        CountOutcome(offered.(core := core), passed)
  }

  // ----- Table loads

  function LoadSlot(s: Slot, e: Entry): Slot {
    s.(state := e.enableState, count := e.seqCount)
  }

  function LoadSlots(slots: Slots, t: DestTable): Slots {
    seq(DEST_FILES, i requires 0 <= i < DEST_FILES => LoadSlot(slots[i], t[i]))
  }

  /** `DS_TableManageDestFile`. A table becomes active only if it passes validation. */
  function ManageDest(app: App, load: Option<DestTable>, cdsOk: bool): App {
    if load.Some? && VerifyDestTable(load.value) then
      app.(dest := load, core := UpdateCds(app.core.(slots := LoadSlots(app.core.slots, load.value)), cdsOk))
    else app
  }

  /** The IDs that a filter table subscribes to. */
  function TableIds(t: FilterTable): set<MsgId> {
    set i | 0 <= i < ENTRIES && IsValidMsgId(t[i].mid) :: t[i].mid
  }

  function OwnIds(): set<MsgId> {
    {CMD_MID, SEND_HK_MID}
  }

  /** `DS_TableUnsubscribe`. */
  function Unsubscribe(subs: set<MsgId>, t: FilterTable): set<MsgId> {
    subs - (TableIds(t) - OwnIds())
  }

  /** `DS_TableSubscribe`. */
  function Subscribe(subs: set<MsgId>, t: FilterTable): set<MsgId> {
    subs + (TableIds(t) - OwnIds())
  }

  /** `DS_TableManageFilter`: unsubscribe the old table, subscribe the new one, build the index. */
  ghost function ManageFilter(app: App, load: Option<FilterTable>): App {
    if load.Some? && VerifyFilterTable(load.value) then
      var left := if app.filter.Some? then Unsubscribe(app.subs, app.filter.value) else app.subs;
      app.(filter := load, ix := Build(Mids(load.value)), added := [], subs := Subscribe(left, load.value))
    else app
  }

  // ----- Age tests and closing

  datatype CloseOutcome = CloseOutcome(update: UpdateIo, close: CloseIo)

  type CloseIos = l: seq<CloseOutcome> | |l| == DEST_FILES
    ghost witness seq(DEST_FILES, i => CloseOutcome(UpdateIo(false, [], 0), CloseIo(false)))

  /** The loop of `DS_FileTestAge` over the first `k` destinations. */
  function AgeAll(core: Core, dest: DestTable, ios: CloseIos, k: nat): Core
    requires k <= DEST_FILES
  {
    if k == 0 then core
    else
      var before := AgeAll(core, dest, ios, k - 1);
      Put(before, k - 1, AgeTest(At(before, k - 1), dest[k - 1], ios[k - 1].update, ios[k - 1].close), true)
  }

  /** Closing destination `i` on command. Without a destination table the C code would follow a NULL pointer. */
  function CloseOne(core: Core, dest: Option<DestTable>, i: nat, io: CloseOutcome): Core
    requires i < DEST_FILES
  {
    if core.slots[i].handle.None? then core
    else if dest.None? then core.(os := core.os.(fault := true))
    else Put(core, i, CloseIfOpen(At(core, i), dest.value[i], io.update, io.close), true)
  }

  /** The loop of `DS_CloseAllCmd` over the first `k` destinations. */
  function CloseAll(core: Core, dest: Option<DestTable>, ios: CloseIos, k: nat): Core
    requires k <= DEST_FILES
  {
    if k == 0 then core else CloseOne(CloseAll(core, dest, ios, k - 1), dest, k - 1, ios[k - 1])
  }

  function Rate(s: Slot): Slot {
    s.(rate := s.growth / SECS_PER_HK_CYCLE, growth := 0)
  }

  function Rates(slots: Slots): Slots {
    seq(DEST_FILES, i requires 0 <= i < DEST_FILES => Rate(slots[i]))
  }

  /** `DS_AppSendHkCmd`: age tests, then table loads, then growth rates. */
  ghost function Housekeeping(app: App, ios: CloseIos, destLoad: Option<DestTable>, cdsOk: bool,
                              filterLoad: Option<FilterTable>): App
  {
    var aged := if app.dest.Some? then app.(core := AgeAll(app.core, app.dest.value, ios, DEST_FILES)) else app;
    var loaded := ManageFilter(ManageDest(aged, destLoad, cdsOk), filterLoad);
    loaded.(core := loaded.core.(slots := Rates(loaded.core.slots)))
  }

  // ----- Commands

  datatype Command =
    | Malformed // unknown code or wrong length
    | Noop
    | ResetCounters
    | SetAppState(state: nat, cdsOk: bool)
    | SetFilterFile(id: MsgId, k: nat, fileIndex: nat)
    | SetFilterType(id: MsgId, k: nat, filterType: nat)
    | SetFilterParms(id: MsgId, k: nat, n: nat, x: nat, o: nat)
    | SetDestType(i: nat, nameType: nat)
    | SetDestState(i: nat, state: nat)
    | SetDestPath(i: nat, text: seq<char>)
    | SetDestBase(i: nat, text: seq<char>)
    | SetDestExt(i: nat, text: seq<char>)
    | SetDestSize(i: nat, maxSize: Word32)
    | SetDestAge(i: nat, maxAge: Word32)
    | SetDestCount(i: nat, count: nat, cdsOk: bool)
    | CloseFile(i: nat, io: CloseOutcome)
    | CloseAllFiles(ios: CloseIos)
    | GetFileInfo
    | AddMID(id: MsgId)
    | RemoveMID(id: MsgId)

  function Accept(app: App): App {
    app.(cnt := app.cnt.(accepted := (app.cnt.accepted + 1) % 256))
  }

  function Reject(app: App): App {
    app.(cnt := app.cnt.(rejected := (app.cnt.rejected + 1) % 256))
  }

  /** `CFE_SB_MessageStringGet` into a table field: what lies behind the new terminator stays. */
  function Refill(field: seq<char>, text: seq<char>): (r: seq<char>)
    requires |field| > 0
    ensures |r| == |field|
  {
    var s := CStr(text);
    var kept := if |s| < |field| then s else s[..|field| - 1];
    kept + [NUL] + field[|kept| + 1..]
  }

  /** The field then holds the text of the command, cut to what fits before the terminator. */
  lemma RefillHolds(field: seq<char>, text: seq<char>)
    requires |field| > 0
    ensures CStr(Refill(field, text)) == if |CStr(text)| < |field| then CStr(text) else CStr(text)[..|field| - 1]
  {
    var s := CStr(text);
    var kept := if |s| < |field| then s else s[..|field| - 1];
    assert forall c | c in kept :: c in s;
    CStrIs(Refill(field, text), kept);
  }

  function SetFilter(t: FilterTable, r: nat, k: nat, f: Parms): FilterTable
    requires r < ENTRIES && k < FILTERS
  {
    t[r := t[r].(filters := t[r].filters[k := f])]
  }

  /** The frame of the three filter commands: filter `k` of the entry that holds `id` is changed by `change`. */
  ghost function ChangeFilter(app: App, id: MsgId, k: nat, valid: bool, change: Parms -> Parms): App
    requires app.filter.Some? ==> CanFind(app, id) && -1 <= Lookup(app, id) < ENTRIES
  {
    if !IsValidMsgId(id) || k >= FILTERS || !valid || app.filter.None? then Reject(app)
    else
      var r := Lookup(app, id);
      if r == -1 then Reject(app)
      else Accept(app.(filter := Some(SetFilter(app.filter.value, r, k, change(app.filter.value[r].filters[k])))))
  }

  /** The arguments of a destination command are good and the table is loaded. */
  predicate DestCommandOk(app: App, i: nat, valid: bool) {
    i < DEST_FILES && valid && app.dest.Some?
  }

  function SetEntry(app: App, i: nat, e: Entry): App
    requires DestCommandOk(app, i, true)
  {
    app.(dest := Some(app.dest.value[i := e]))
  }

  function SetSlot(app: App, i: nat, s: Slot): App
    requires i < DEST_FILES
  {
    app.(core := app.core.(slots := app.core.slots[i := s]))
  }

  /** Every search and walk that ADD MID would make ends. */
  ghost predicate CanAdd(app: App, id: MsgId) {
    IsValidMsgId(id) && app.filter.Some? ==>
      && CanFind(app, id)
      && (Lookup(app, id) == -1 ==>
            && CanFind(app, INVALID_MSG_ID)
            && (Lookup(app, INVALID_MSG_ID) != -1 ==> AddAccepted(app.ix, Mids(app.filter.value), id)))
  }

  /** `DS_AddMIDCmd`. */
  ghost function AddMidCmd(app: App, id: MsgId): App
    requires CanAdd(app, id)
  {
    if !IsValidMsgId(id) || app.filter.None? then Reject(app)
    else if Lookup(app, id) != -1 then Reject(app)
    else if Lookup(app, INVALID_MSG_ID) == -1 then Reject(app)
    else
      var slot := Lookup(app, INVALID_MSG_ID);
      Accept(app.(filter := Some(app.filter.value[slot := ResetEntry(id)]), ix := Add(app.ix, id, slot),
                  added := app.added + [Hash(id)], subs := app.subs + {id}))
  }

  /** `DS_RemoveMIDCmd`, which searches before it checks anything. */
  ghost function RemoveMidCmd(app: App, id: MsgId): App
    requires CanFind(app, id) && -1 <= Lookup(app, id) < ENTRIES
  {
    var slot := Lookup(app, id);
    if !IsValidMsgId(id) || app.filter.None? || slot == -1 then Reject(app)
    else
      var table: FilterTable := app.filter.value[slot := ResetEntry(INVALID_MSG_ID)];
      Accept(app.(filter := Some(table), ix := Build(Mids(table)), added := [], subs := app.subs - {id}))
  }

  ghost predicate CanFindEntry(app: App, id: MsgId) {
    CanFind(app, id) && -1 <= Lookup(app, id) < ENTRIES
  }

  ghost predicate CanApply(app: App, cmd: Command) {
    match cmd
    case SetFilterFile(id, _, _) => app.filter.Some? ==> CanFindEntry(app, id)
    case SetFilterType(id, _, _) => app.filter.Some? ==> CanFindEntry(app, id)
    case SetFilterParms(id, _, _, _, _) => app.filter.Some? ==> CanFindEntry(app, id)
    case AddMID(id) => CanAdd(app, id)
    case RemoveMID(id) => CanFindEntry(app, id)
    case _ => true
  }

  /** `DS_AppProcessCmd` and the handlers of ds_cmds.c. */
  ghost function Apply(app: App, cmd: Command): App
    requires CanApply(app, cmd)
  {
    match cmd
    case Malformed => Reject(app)
    case Noop => Accept(app)
    case GetFileInfo => Accept(app)
    case ResetCounters => app.(cnt := Counters(0, 0, 0, 0, 0, 0), attempts := 0)
    case SetAppState(state, cdsOk) =>
      if !VerifyState(state) then Reject(app)
      else Accept(app.(core := UpdateCds(app.core.(enabled := state), cdsOk)))
    case SetFilterFile(id, k, fileIndex) =>
      ChangeFilter(app, id, k, fileIndex < DEST_FILES, (f: Parms) => f.(fileIndex := fileIndex))
    case SetFilterType(id, k, filterType) =>
      ChangeFilter(app, id, k, VerifyType(filterType), (f: Parms) => f.(filterType := filterType))
    case SetFilterParms(id, k, n, x, o) =>
      ChangeFilter(app, id, k, VerifyParms(n, x, o), (f: Parms) => f.(n := n, x := x, o := o))
    case SetDestState(i, state) =>
      if !DestCommandOk(app, i, VerifyState(state)) then Reject(app)
      else Accept(SetSlot(SetEntry(app, i, app.dest.value[i].(enableState := state)),
                          i, app.core.slots[i].(state := state)))
    case SetDestCount(i, count, cdsOk) =>
      if !DestCommandOk(app, i, count <= MAX_SEQUENCE_COUNT) then Reject(app)
      else
        var s := app.core.slots[i];
        var changed := SetSlot(SetEntry(app, i, app.dest.value[i].(seqCount := count)),
                               i, s.(count := count));
        Accept(changed.(core := UpdateCds(changed.core, cdsOk)))
    case CloseFile(i, io) =>
      if i >= DEST_FILES then Reject(app) else Accept(app.(core := CloseOne(app.core, app.dest, i, io)))
    case CloseAllFiles(ios) => Accept(app.(core := CloseAll(app.core, app.dest, ios, DEST_FILES)))
    case AddMID(id) => AddMidCmd(app, id)
    case RemoveMID(id) => RemoveMidCmd(app, id)
    case _ => ApplyToEntry(app, cmd)
  }

  /** The commands that change nothing but one destination table entry. */
  function ApplyToEntry(app: App, cmd: Command): App {
    var (i, valid) := match cmd
      case SetDestType(i, nameType) => (i, VerifyType(nameType))
      case SetDestPath(i, _) => (i, true)
      case SetDestBase(i, _) => (i, true)
      case SetDestExt(i, _) => (i, true)
      case SetDestSize(i, maxSize) => (i, maxSize >= MIN_SIZE_LIMIT)
      case SetDestAge(i, maxAge) => (i, maxAge >= MIN_AGE_LIMIT)
      case _ => (0, false);
    if !DestCommandOk(app, i, valid) then Reject(app)
    else Accept(SetEntry(app, i, ChangedEntry(app.dest.value[i], cmd)))
  }

  function ChangedEntry(e: Entry, cmd: Command): Entry {
    match cmd
    case SetDestType(_, nameType) => e.(nameType := nameType)
    case SetDestPath(_, text) => e.(parts := e.parts.(path := Refill(e.parts.path, text)))
    case SetDestBase(_, text) => e.(parts := e.parts.(base := Refill(e.parts.base, text)))
    case SetDestExt(_, text) => e.(parts := e.parts.(ext := Refill(e.parts.ext, text)))
    case SetDestSize(_, maxSize) => e.(maxSize := maxSize)
    case SetDestAge(_, maxAge) => e.(maxAge := maxAge)
    case _ => e
  }

  // ----- The main loop

  /** A message handled by DS itself, or only offered for storage, or no message within a second. */
  datatype Event =
    | Data
    | CommandMsg(cmd: Command)
    | HkRequest(wellFormed: bool, closes: CloseIos, destLoad: Option<DestTable>, cdsOk: bool,
                filterLoad: Option<FilterTable>)
    | Timeout(destLoad: Option<DestTable>, cdsOk: bool, filterLoad: Option<FilterTable>)

  /** What handling the message itself does, before DS considers storing it. */
  ghost predicate Handle(app: App, ev: Event, app': App) {
    match ev
    case Data => app' == app
    case CommandMsg(cmd) => CanApply(app, cmd) && app' == Apply(app, cmd)
    case HkRequest(wellFormed, closes, destLoad, cdsOk, filterLoad) =>
      app' == if wellFormed then Housekeeping(app, closes, destLoad, cdsOk, filterLoad) else Reject(app)
    case Timeout(destLoad, cdsOk, filterLoad) =>
      app' == ManageFilter(ManageDest(app, destLoad, cdsOk), filterLoad)
  }

  /** Storing the message `p`: DS's own messages are offered only if their ID is in the filter table. */
  ghost predicate Offer(app: App, ev: Event, p: Packet, ios: StoreIos, app': App) {
    if ev.Timeout? then app' == app
    else if ev.Data? then CanStore(app, p) && app' == StorePacket(app, p, ios)
    else
      && CanFindEntry(app, p.mid)
      && app' == if Lookup(app, p.mid) != -1 then StorePacket(app, p, ios) else app
  }

  /** `DS_AppProcessMsg`, or the timeout branch of `DS_AppMain`, by way of the state `mid` between the two halves.
      No next state exists where a search never ends. */
  ghost predicate Step(app: App, ev: Event, mid: App, p: Packet, ios: StoreIos, app': App) {
    Handle(app, ev, mid) && Offer(mid, ev, p, ios, app')
  }

  // ----- Restart after a processor reset

  /** How the Critical Data Store answers at start-up: a new area, an existing one and what it holds, or neither. */
  datatype CdsIo = NewArea(copied: bool) | Existing(restored: bool, counts: seq<nat>, enabled: nat) | Refused

  /** What a reset leaves of a destination: zeroed status, and the files on disk, the open one unclosed. */
  function AfterReset(s: Slot): Slot {
    var log := if s.handle.Some? then s.log + [DiskFile(s.name, s.data, s.packets, s.header, s.life)] else s.log;
    ZeroSlot().(log := log, made := s.made)
  }

  function ResetSlots(slots: Slots): Slots {
    seq(DEST_FILES, i requires 0 <= i < DEST_FILES => AfterReset(slots[i]))
  }

  function RestoreSlots(slots: Slots, counts: seq<nat>): Slots
    requires |counts| == DEST_FILES
  {
    seq(DEST_FILES, i requires 0 <= i < DEST_FILES => slots[i].(count := counts[i]))
  }

  /** `DS_TableCreateCDS`. */
  function CreateCds(core: Core, io: CdsIo): Core {
    match io
    case NewArea(copied) =>
      core.(cds := if copied then Cds(true, Counts(core.slots), core.enabled) else Cds(false, [], 0))
    case Existing(restored, counts, enabled) =>
      if restored && |counts| == DEST_FILES then
        core.(cds := Cds(true, counts, enabled), enabled := enabled % 256,
              slots := RestoreSlots(core.slots, counts))
      else core.(cds := core.cds.(good := false))
    case Refused => core.(cds := core.cds.(good := false))
  }

  /** The application data before the tables are loaded: all zero but for the enable state. The file system and the
      CDS area outlive the reset, the handles do not. */
  function Zeroed(core: Core): App {
    App(Core(ResetSlots(core.slots), Os({}, false, core.os.ops), core.cds.(good := false), ENABLED),
        None, None, Empty(), [], Counters(0, 0, 0, 0, 0, 0), OwnIds(), 0)
  }

  /** `DS_AppInitialize` after a reset in state `app`: memory is zeroed, the tables are loaded if their files
      can be read, and only then the CDS is consulted. */
  ghost function Restart(app: App, destLoad: Option<DestTable>, filterLoad: Option<FilterTable>, io: CdsIo): App {
    var loaded := ManageFilter(ManageDest(Zeroed(app.core), destLoad, true), filterLoad);
    loaded.(core := CreateCds(loaded.core, io))
  }

  // ----- Runs

  datatype Input =
    | Message(ev: Event, p: Packet, ios: StoreIos)
    | Reset(destLoad: Option<DestTable>, filterLoad: Option<FilterTable>, io: CdsIo)

  ghost predicate Next(app: App, input: Input, mid: App, app': App) {
    match input
    case Message(ev, p, ios) => Step(app, ev, mid, p, ios, app')
    case Reset(destLoad, filterLoad, io) => mid == app && app' == Restart(app, destLoad, filterLoad, io)
  }

  /** The state before the very first start: nothing on disk, nothing in the CDS. */
  function PowerOff(): App {
    App(Core(seq(DEST_FILES, i => ZeroSlot()), Os({}, false, []), Cds(false, [], 0), ENABLED), None, None, Empty(), [],
        Counters(0, 0, 0, 0, 0, 0), OwnIds(), 0)
  }

  /** `apps` are the states between inputs, `mids` the states between handling a message and storing it. */
  ghost predicate Run(apps: seq<App>, mids: seq<App>, inputs: seq<Input>) {
    && |apps| == |inputs| + 1 && |mids| == |inputs|
    && apps[0] == PowerOff()
    && forall k | 0 <= k < |inputs| :: Next(apps[k], inputs[k], mids[k], apps[k + 1])
  }
}
