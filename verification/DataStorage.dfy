/** `DS_AppData` with the functions of ds_file.c, ds_table.c and ds_cmds.c that update it step by step,
    each proved to do what the functions of `DestFile` and `App` say. */
module DataStorage {
  import opened HashChains
  import opened HashIndex
  import opened HashTable
  import HashRuns
  import opened FilterAlgorithm
  import opened FileName
  import NameBuffer
  import opened FileFormat
  import opened FileSystem
  import opened DestFile
  import opened App

  // ----- How steps on one destination compose

  /** A step that left the CDS alone leaves no trace behind a second step on the same destination. */
  lemma PutTwice(core: Core, i: nat, w1: World, w2: World, ok: bool)
    requires i < DEST_FILES && !w1.synced
    ensures Put(Put(core, i, w1, ok), i, w2, ok) == Put(core, i, w2, ok)
    ensures At(Put(core, i, w1, ok), i) == w1
  {
    assert core.slots[i := w1.s][i := w2.s] == core.slots[i := w2.s];
  }

  /** Updating the CDS before or after a write makes no difference, since a write changes no count. */
  lemma PutAfterSync(core: Core, i: nat, w1: World, w2: World, ok: bool)
    requires i < DEST_FILES && w2.synced == w1.synced && w2.s.count == w1.s.count
    ensures Put(Put(core, i, w1, ok), i, w2.(synced := false), ok) == Put(core, i, w2, ok)
    ensures At(Put(core, i, w1, ok), i) == w1.(synced := false)
  {
    assert core.slots[i := w1.s][i := w2.s] == core.slots[i := w2.s];
    assert Counts(core.slots[i := w1.s]) == Counts(core.slots[i := w2.s]);
  }

  lemma WriteDataSync(w: World, e: Entry, p: Bytes, io: WriteIo)
    ensures DestFile.WriteData(w.(synced := false), e, p, io) == DestFile.WriteData(w, e, p, io).(synced := false)
    ensures DestFile.WriteData(w, e, p, io).synced == w.synced
    ensures DestFile.WriteData(w, e, p, io).s.count == w.s.count
  {
  }

  lemma WriteHeaderKeeps(w: World, e: Entry, i: nat, io: CreateIo)
    ensures var r := DestFile.WriteHeader(w, e, i, io);
            && r.synced == w.synced
            && (r.s.handle.Some? ==>
                  r.s.made == w.s.made && r.s.count == w.s.count && r.s.name == w.s.name)
  {
    hide Overlay, DsHeader, NameBytes, Prefix, MoveTarget;
  }

  class Storage {
    const slots: array<Slot>       // FileStatus
    var os: Os
    var cds: Cds                   // DataStoreHandle, and the area behind it
    var enabled: nat               // AppEnableState
    var dest: Option<DestTable>    // DestFileTblPtr
    var filter: Option<FilterTable> // FilterTblPtr
    const index: LinkTable         // HashLinks and HashTable
    var cnt: Counters
    var subs: set<MsgId>
    ghost var added: seq<nat>
    ghost var attempts: nat

    ghost predicate Valid()
      reads this, slots, index.links, index.heads
    {
      slots.Length == DEST_FILES && index.Valid()
    }

    ghost function Files(): Core
      requires slots.Length == DEST_FILES
      reads this, slots
    {
      Core(slots[..], os, cds, enabled)
    }

    ghost function State(): App
      requires Valid()
      reads this, slots, index.links, index.heads
    {
      App(Files(), dest, filter, index.State(), added, cnt, subs, attempts)
    }

    /** Files are open only while a destination table is loaded, as `AppRuns.RunHandlesAndCounters` proves of every run:
        closing one without the table would follow a NULL pointer. */
    ghost predicate FilesHaveTable()
      reads this, slots
    {
      dest.None? ==> forall i | 0 <= i < slots.Length :: slots[i].handle.None?
    }

    /** Zeroed application data, DS enabled by default and subscribed to its own messages. */
    constructor ()
      ensures Valid() && State() == PowerOff()
    {
      slots := new Slot[DEST_FILES](_ => ZeroSlot());
      os := Os({}, false, []);
      cds := Cds(false, [], 0);
      enabled := ENABLED;
      dest := None;
      filter := None;
      index := new LinkTable();
      cnt := Counters(0, 0, 0, 0, 0, 0);
      subs := OwnIds();
      added := [];
      attempts := 0;
      new;
      assert slots[..] == PowerOff().core.slots;
    }

    // ----- ds_table.c: the Critical Data Store

    /** `DS_TableUpdateCDS`. */
    method UpdateCDS(ok: bool)
      requires Valid()
      modifies this`cds
      ensures Files() == UpdateCds(old(Files()), ok)
    {
      ghost var before := Files();
      if cds.good {
        var buffer := new nat[DEST_FILES + 1];
        for i := 0 to DEST_FILES
          invariant cds == before.cds
          invariant forall j | 0 <= j < i :: buffer[j] == before.slots[j].count
        {
          buffer[i] := slots[i].count;
        }
        buffer[DEST_FILES] := enabled;
        assert buffer[..DEST_FILES] == Counts(before.slots);
        if ok {
          cds := Cds(true, buffer[..DEST_FILES], buffer[DEST_FILES]);
        } else {
          cds := cds.(good := false);
        }
      }
      assert slots[..] == before.slots;
    }

    /** `DS_TableCreateCDS`. */
    method CreateCDS(io: CdsIo)
      requires Valid()
      modifies this`cds, this`enabled, slots
      ensures Files() == CreateCds(old(Files()), io)
    {
      ghost var core := Files();
      var buffer := new nat[DEST_FILES + 1];
      match io {
        case NewArea(copied) =>
          for i := 0 to DEST_FILES
            invariant Files() == core
            invariant forall j | 0 <= j < i :: buffer[j] == core.slots[j].count
          {
            buffer[i] := slots[i].count;
          }
          buffer[DEST_FILES] := enabled;
          assert buffer[..DEST_FILES] == Counts(core.slots);
          cds := if copied then Cds(true, buffer[..DEST_FILES], buffer[DEST_FILES]) else Cds(false, [], 0);
        case Existing(restored, counts, state) =>
          if restored && |counts| == DEST_FILES {
            for i := 0 to DEST_FILES
              invariant cds == core.cds && enabled == core.enabled
              invariant forall j | 0 <= j < i :: slots[j] == core.slots[j].(count := counts[j])
              invariant forall j | i <= j < DEST_FILES :: slots[j] == core.slots[j]
            {
              slots[i] := slots[i].(count := counts[i]);
            }
            assert slots[..] == RestoreSlots(core.slots, counts);
            enabled := state % 256;
            cds := Cds(true, counts, state);
          } else {
            cds := cds.(good := false);
          }
        case Refused => cds := cds.(good := false);
      }
      assert slots[..] == CreateCds(core, io).slots;
    }

    // ----- ds_file.c

    /** `DS_FileCloseDest`. */
    method CloseDest(i: nat, io: CloseIo)
      requires Valid() && i < DEST_FILES && dest.Some?
      modifies this`os, slots
      ensures Files() == Put(old(Files()), i, DestFile.CloseDest(At(old(Files()), i), dest.value[i], io), true)
    {
      hide FromLastSlash, MoveDirectory;
      ghost var core := Files();
      ghost var w := DestFile.CloseDest(At(core, i), dest.value[i], io);
      os := Release(os, slots[i].handle);
      var onDisk := slots[i].name;
      if dest.value[i].movename[0] != NUL {
        var target := NameBuffer.MovePath(dest.value[i].movename, slots[i].name);
        if target.Some? {
          if io.moved {
            os := os.(ops := os.ops + [Move(slots[i].name, target.value)]);
            onDisk := target.value;
          }
        } else if SEPARATOR !in slots[i].name {
          os := os.(fault := true);
        }
      }
      assert os == w.os;
      var file := DiskFile(onDisk, slots[i].data, slots[i].packets, slots[i].header, slots[i].life);
      slots[i] := slots[i].(log := slots[i].log + [file], data := [], pos := 0, packets := [], tests := 0);
      slots[i] := slots[i].(handle := None);
      slots[i] := slots[i].(age := 0);
      slots[i] := slots[i].(size := 0);
      slots[i] := slots[i].(name := "");
      assert slots[..] == core.slots[i := w.s];
    }

    /** `DS_FileWriteError`. */
    method WriteError(i: nat, io: CloseIo)
      requires Valid() && i < DEST_FILES && dest.Some?
      modifies this`os, slots
      ensures Files() == Put(old(Files()), i, DestFile.WriteError(At(old(Files()), i), dest.value[i], io), true)
    {
      CloseDest(i, io);
      slots[i] := slots[i].(state := DISABLED);
    }

    /** `OS_write` on the destination's handle: how many bytes were written. */
    method OsWrite(i: nat, b: Bytes, written: nat) returns (result: nat)
      requires Valid() && i < DEST_FILES
      modifies this`os, slots
      ensures slots[..] == old(slots[..])[i := WriteBytes(old(slots[i]), b, written)]
      ensures os == UseToWrite(old(os), old(slots[i]), b, written) && result == written
    {
      os := UseToWrite(os, slots[i], b, written);
      slots[i] := WriteBytes(slots[i], b, written);
      result := written;
    }

    /** `DS_FileWriteData`. */
    method WriteData(i: nat, p: Bytes, io: WriteIo)
      requires Valid() && i < DEST_FILES && dest.Some?
      modifies this`os, slots
      ensures Files() == Put(old(Files()), i, DestFile.WriteData(At(old(Files()), i), dest.value[i], p, io), true)
    {
      var result := OsWrite(i, p, io.written);
      if result == |p| {
        slots[i] := slots[i].(size := (slots[i].size + |p|) % U32);
        slots[i] := slots[i].(growth := (slots[i].growth + |p|) % U32, packets := slots[i].packets + [p]);
      } else {
        WriteError(i, io.close);
      }
    }

    /** `DS_FileWriteHeader`. */
    method WriteHeader(i: nat, io: CreateIo)
      requires Valid() && i < DEST_FILES && dest.Some?
      modifies this`os, slots
      ensures Files() == Put(old(Files()), i, DestFile.WriteHeader(At(old(Files()), i), dest.value[i], i, io), true)
    {
      hide DestFile.WriteError, Overlay, Prefix, DsHeader, NameBytes;
      ghost var core, e := Files(), dest.value[i];
      var result := OsWrite(i, io.fsHeader, io.fsWritten);
      ghost var w1 := World(slots[i], os, false);
      assert Files() == Put(core, i, w1, true);
      if result == FS_HEADER_SIZE {
        slots[i] := slots[i].(size := (slots[i].size + FS_HEADER_SIZE) % U32);
        slots[i] := slots[i].(growth := (slots[i].growth + FS_HEADER_SIZE) % U32);
        var header := DsHeader(i, dest.value[i].nameType, NameBytes(slots[i].name));
        result := OsWrite(i, header, io.dsWritten);
        ghost var w2 := World(slots[i], os, false);
        assert Files() == Put(core, i, w2, true);
        if result == DS_HEADER_SIZE {
          slots[i] := slots[i].(size := (slots[i].size + DS_HEADER_SIZE) % U32);
          slots[i] := slots[i].(growth := (slots[i].growth + DS_HEADER_SIZE) % U32);
          assert slots[..] == core.slots[i := DestFile.WriteHeader(At(core, i), e, i, io).s];
        } else {
          WriteError(i, io.close);
          assert DestFile.WriteHeader(At(core, i), e, i, io) == DestFile.WriteError(w2, e, io.close);
          PutTwice(core, i, w2, DestFile.WriteError(w2, e, io.close), true);
        }
      } else {
        WriteError(i, io.close);
        assert DestFile.WriteHeader(At(core, i), e, i, io) == DestFile.WriteError(w1, e, io.close);
        PutTwice(core, i, w1, DestFile.WriteError(w1, e, io.close), true);
      }
    }

    /** `DS_FileCreateSequence`, as a string. */
    method CreateSequence(nameType: nat, count: nat, clock: ClockText) returns (text: string)
      ensures text == SequenceText(nameType, count, clock)
    {
      var buffer := new char[PATH_SIZE];
      if nameType == BY_COUNT {
        NameBuffer.CountSequence(buffer, count);
        text := buffer[..SEQUENCE_DIGITS];
      } else if nameType == BY_TIME {
        forall k | 0 <= k < 23 {
          buffer[k] := clock[k];
        }
        assert buffer[..23] == clock;
        NameBuffer.TimeSequence(buffer, clock);
        text := buffer[..13];
      } else {
        text := "";
      }
    }

    /** `DS_FileCreateName`. */
    method CreateName(i: nat, clock: ClockText)
      requires Valid() && i < DEST_FILES && dest.Some?
      modifies slots
      ensures slots[..] == old(slots[..])[i := Named(old(slots[i]), dest.value[i], clock)]
    {
      var e := dest.value[i];
      var sequence := CreateSequence(e.nameType, slots[i].count, clock);
      var name := NameBuffer.CreateName(e.parts, sequence);
      if name.Some? {
        slots[i] := slots[i].(name := name.value);
      } else {
        slots[i] := slots[i].(state := DISABLED);
      }
    }

    /** The status after an attempt to name a new file. */
    static function Named(s: Slot, e: Entry, clock: ClockText): Slot {
      var built := NameFor(e.parts, SequenceText(e.nameType, s.count, clock));
      if built.Some? then s.(name := built.value) else s.(state := DISABLED)
    }

    /** `DS_FileCreateDest`. */
    method CreateDest(i: nat, io: CreateIo, cdsOk: bool)
      requires Valid() && i < DEST_FILES && dest.Some?
      modifies this`os, this`cds, slots
      ensures Files() == Put(old(Files()), i, DestFile.CreateDest(At(old(Files()), i), dest.value[i], i, io), cdsOk)
    {
      hide DestFile.WriteHeader, NameFor, SequenceText, NameBytes;
      ghost var core, e := Files(), dest.value[i];
      CreateName(i, io.clock);
      if slots[i].name != "" {
        if io.handle.None? {
          slots[i] := slots[i].(name := "");
          slots[i] := slots[i].(state := DISABLED);
        } else {
          var life := |os.ops|;
          os := Opened(os, io.handle.value, slots[i].name);
          slots[i] := slots[i].(handle := io.handle, data := [], pos := 0, life := life, packets := [], tests := 0,
                                header := Header(i, dest.value[i].nameType, NameBytes(slots[i].name)));
          ghost var w1 := World(slots[i], os, false);
          WriteHeader(i, io);
          ghost var w2 := DestFile.WriteHeader(w1, e, i, io);
          PutTwice(core, i, w1, w2, true);
          WriteHeaderKeeps(w1, e, i, io);
          assert World(slots[i], os, false) == w2;
          if slots[i].handle.Some? && dest.value[i].nameType == BY_COUNT {
            var made := slots[i].made + [Made(dest.value[i].parts, slots[i].count, slots[i].name)];
            slots[i] := slots[i].(made := made);
            slots[i] := slots[i].(count := slots[i].count + 1);
            if slots[i].count > MAX_SEQUENCE_COUNT {
              slots[i] := slots[i].(count := dest.value[i].seqCount);
            }
            ghost var w3 := World(slots[i], os, true);
            assert w3 == DestFile.CreateDest(At(core, i), e, i, io);
            assert slots[..] == core.slots[i := w3.s];
            UpdateCDS(cdsOk);
          }
        }
      }
    }

    /** `DS_FileUpdateHeader`. */
    method UpdateHeader(i: nat, io: UpdateIo)
      requires Valid() && i < DEST_FILES
      modifies this`os, slots
      ensures Files() == Put(old(Files()), i, DestFile.UpdateHeader(At(old(Files()), i), io), true)
    {
      if io.sought {
        slots[i] := slots[i].(pos := FS_HEADER_SIZE);
        var _ := OsWrite(i, io.time, io.written);
      } else {
        os := Use(os, slots[i].handle);
      }
    }

    /** `DS_FileSetupWrite`. */
    method SetupWrite(i: nat, p: Bytes, io: SetupIo, cdsOk: bool)
      requires Valid() && i < DEST_FILES && dest.Some?
      modifies this`os, this`cds, slots
      ensures Files() == Put(old(Files()), i, DestFile.SetupWrite(At(old(Files()), i), dest.value[i], i, p, io), cdsOk)
    {
      ghost var core, e := Files(), dest.value[i];
      ghost var w := At(core, i);
      var openNewFile := false;
      if slots[i].handle.None? {
        openNewFile := true;
      } else if slots[i].size + |p| > dest.value[i].maxSize {
        UpdateHeader(i, io.update);
        CloseDest(i, io.close);
        ghost var w1 := DestFile.UpdateHeader(w, io.update);
        PutTwice(core, i, w1, DestFile.CloseDest(w1, e, io.close), true);
        w := DestFile.CloseDest(w1, e, io.close);
        openNewFile := true;
      } else {
        WriteData(i, p, io.write);
        WriteDataSync(w, e, p, io.write);
      }
      if openNewFile {
        ghost var w2 := DestFile.CreateDest(w, e, i, io.create);
        CreateDest(i, io.create, cdsOk);
        PutTwice(core, i, w, w2, cdsOk);
        if slots[i].handle.Some? {
          WriteData(i, p, io.write);
          WriteDataSync(w2, e, p, io.write);
          PutAfterSync(core, i, w2, DestFile.WriteData(w2, e, p, io.write), cdsOk);
        }
      }
    }

    /** The loop of `DS_FileStorePacket` over the filters of one entry. */
    method StoreByFilters(filters: FilterList, p: Packet, ios: StoreIos) returns (passed: bool)
      requires Valid() && dest.Some?
      modifies this`os, this`cds, slots
      ensures (Files(), passed) == StoreFilters(old(Files()), dest.value, filters, p, ios, FILTERS)
    {
      hide DestFile.SetupWrite, IsPacketFiltered;
      ghost var before := Files();
      passed := false;
      for k := 0 to FILTERS
        invariant (Files(), passed) == StoreFilters(before, dest.value, filters, p, ios, k)
      {
        var f := filters[k];
        if f.n != 0 && f.fileIndex < DEST_FILES {
          if slots[f.fileIndex].state == ENABLED {
            if !IsPacketFiltered(p, f) {
              SetupWrite(f.fileIndex, p.bytes, ios[k].setup, ios[k].cdsOk);
              passed := true;
            }
          }
        }
      }
    }

    /** `DS_FileStorePacket`, for an ID whose search ends. */
    method FileStorePacket(p: Packet, ios: StoreIos)
      requires Valid() && filter.Some? && dest.Some? && CanStore(State(), p) && Ready(State())
      modifies this`os, this`cds, this`cnt, this`attempts, slots
      ensures Valid() && State() == StorePacket(old(State()), p, ios)
    {
      hide StoreFilters, SearchEnds, Find, Mids;
      ghost var before := State();
      attempts := attempts + 1;
      var r := index.FindMsgID(Mids(filter.value), p.mid);
      assert r == Lookup(before, p.mid);
      if r == -1 {
        cnt := cnt.(ignored := (cnt.ignored + 1) % U32);
      } else {
        var passed := StoreByFilters(filter.value[r].filters, p, ios);
        assert index.State() == before.ix;
        if passed {
          cnt := cnt.(passed := (cnt.passed + 1) % U32);
        } else {
          cnt := cnt.(filtered := (cnt.filtered + 1) % U32);
        }
      }
    }

    /** The two calls that every closing on age or command makes. */
    method FinishFile(i: nat, update: UpdateIo, close: CloseIo)
      requires Valid() && i < DEST_FILES && dest.Some?
      modifies this`os, slots
      ensures var w := DestFile.UpdateHeader(At(old(Files()), i), update);
              Files() == Put(old(Files()), i, DestFile.CloseDest(w, dest.value[i], close), true)
    {
      hide DestFile.CloseDest, WriteBytes;
      ghost var core := Files();
      ghost var w := DestFile.UpdateHeader(At(core, i), update);
      UpdateHeader(i, update);
      CloseDest(i, close);
      PutTwice(core, i, w, DestFile.CloseDest(w, dest.value[i], close), true);
    }

    /** `DS_FileTestAge`. */
    method TestAge(ios: CloseIos)
      requires Valid()
      modifies this`os, slots
      ensures Valid()
      ensures Files() == if dest.Some? then AgeAll(old(Files()), dest.value, ios, DEST_FILES) else old(Files())
    {
      hide DestFile.CloseDest, WriteBytes;
      if dest.Some? {
        for i := 0 to DEST_FILES
          invariant Valid() && Files() == AgeAll(old(Files()), dest.value, ios, i)
        {
          ghost var core, w := Files(), World(Older(slots[i]), os, false);
          if slots[i].handle.Some? {
            slots[i] := slots[i].(age := (slots[i].age + SECS_PER_HK_CYCLE) % U32, tests := slots[i].tests + 1);
            if slots[i].age >= dest.value[i].maxAge {
              FinishFile(i, ios[i].update, ios[i].close);
              ghost var updated := DestFile.UpdateHeader(w, ios[i].update);
              PutTwice(core, i, w, DestFile.CloseDest(updated, dest.value[i], ios[i].close), true);
            }
          } else {
            assert core.slots[i := core.slots[i]] == core.slots;
          }
        }
      }
    }

    // ----- ds_table.c: table loads

    /** `DS_TableManageDestFile`. */
    method ManageDestFile(load: Option<DestTable>, cdsOk: bool)
      requires Valid()
      modifies this`dest, this`cds, slots
      ensures Valid() && State() == ManageDest(old(State()), load, cdsOk)
    {
      if load.Some? && VerifyDestTable(load.value) {
        dest := load;
        for i := 0 to DEST_FILES
          invariant dest == load && cds == old(cds)
          invariant forall j | 0 <= j < i :: slots[j] == LoadSlot(old(slots[j]), load.value[j])
          invariant forall j | i <= j < DEST_FILES :: slots[j] == old(slots[j])
        {
          slots[i] := slots[i].(state := load.value[i].enableState);
          slots[i] := slots[i].(count := load.value[i].seqCount);
        }
        assert slots[..] == LoadSlots(old(Files()).slots, load.value);
        UpdateCDS(cdsOk);
      }
      assert index.State() == old(index.State());
    }

    /** The IDs among the first `k` entries that `DS_TableSubscribe` and `DS_TableUnsubscribe` act on. */
    static ghost function ForeignIds(t: FilterTable, k: nat): set<MsgId>
      requires k <= ENTRIES
    {
      set i | 0 <= i < k && HashRuns.IsValidMsgId(t[i].mid) && t[i].mid !in OwnIds() :: t[i].mid
    }

    /** `DS_TableSubscribe`. */
    method SubscribeAll(t: FilterTable)
      modifies this`subs
      ensures subs == Subscribe(old(subs), t)
    {
      for i := 0 to ENTRIES
        invariant subs == old(subs) + ForeignIds(t, i)
      {
        var id := t[i].mid;
        if HashRuns.IsValidMsgId(id) && id != CMD_MID && id != SEND_HK_MID {
          subs := subs + {id};
        }
      }
    }

    /** `DS_TableUnsubscribe`. */
    method UnsubscribeAll(t: FilterTable)
      modifies this`subs
      ensures subs == Unsubscribe(old(subs), t)
    {
      for i := 0 to ENTRIES
        invariant subs == old(subs) - ForeignIds(t, i)
      {
        var id := t[i].mid;
        if HashRuns.IsValidMsgId(id) && id != CMD_MID && id != SEND_HK_MID {
          subs := subs - {id};
        }
      }
    }

    /** `DS_TableManageFilter`. */
    method ManageFilterTable(load: Option<FilterTable>)
      requires Valid()
      modifies this`filter, this`subs, this`added, index.links, index.heads
      ensures Valid() && State() == ManageFilter(old(State()), load)
    {
      if load.Some? && VerifyFilterTable(load.value) {
        if filter.Some? {
          UnsubscribeAll(filter.value);
        }
        filter := load;
        SubscribeAll(load.value);
        index.CreateHash(Mids(load.value));
        added := [];
      }
    }

    // ----- ds_app.c: start-up

    /** The part of `DS_AppInitialize` before the tables: `memset`, and the subscriptions to DS's own messages. */
    method Clear()
      requires Valid()
      modifies this`os, this`cds, this`enabled, this`dest, this`filter, this`cnt, this`subs, this`added, this`attempts,
               slots, index.links, index.heads
      ensures Valid() && State() == Zeroed(old(Files()))
    {
      ghost var before := Files().slots;
      forall i | 0 <= i < DEST_FILES {
        slots[i] := AfterReset(slots[i]);
      }
      index.Clear();
      os, cds := Os({}, false, os.ops), cds.(good := false);
      dest, filter := None, None;
      cnt := Counters(0, 0, 0, 0, 0, 0);
      enabled := ENABLED;
      added, attempts := [], 0;
      subs := {SEND_HK_MID};
      subs := subs + {CMD_MID};
      assert slots[..] == ResetSlots(before);
      assert subs == OwnIds();
    }

    /** `DS_AppInitialize` after a reset. */
    method AppInitialize(destLoad: Option<DestTable>, filterLoad: Option<FilterTable>, io: CdsIo)
      requires Valid()
      modifies this`os, this`cds, this`enabled, this`dest, this`filter, this`cnt, this`subs, this`added, this`attempts,
               slots, index.links, index.heads
      ensures Valid() && State() == Restart(old(State()), destLoad, filterLoad, io)
    {
      hide Zeroed, Build, CreateCds, ManageFilter, ManageDest;
      Clear();
      ManageDestFile(destLoad, true);
      ManageFilterTable(filterLoad);
      ghost var loaded := State();
      CreateCDS(io);
      assert index.State() == loaded.ix;
    }

    // ----- ds_cmds.c

    method CountAccepted()
      modifies this`cnt
      ensures cnt == old(cnt).(accepted := (old(cnt).accepted + 1) % 256)
    {
      cnt := cnt.(accepted := (cnt.accepted + 1) % 256);
    }

    method CountRejected()
      modifies this`cnt
      ensures cnt == old(cnt).(rejected := (old(cnt).rejected + 1) % 256)
    {
      cnt := cnt.(rejected := (cnt.rejected + 1) % 256);
    }

    /** `DS_ResetCountersCmd`. */
    method ResetCountersCmd()
      modifies this`cnt, this`attempts
      ensures cnt == Counters(0, 0, 0, 0, 0, 0) && attempts == 0
    {
      cnt := Counters(0, 0, 0, 0, 0, 0);
      attempts := 0;
    }

    /** `DS_SetAppStateCmd`. */
    method SetAppStateCmd(state: nat, cdsOk: bool)
      requires Valid()
      modifies this`enabled, this`cds, this`cnt
      ensures Valid() && State() == Apply(old(State()), SetAppState(state, cdsOk))
    {
      if !VerifyState(state) {
        CountRejected();
      } else {
        enabled := state;
        CountAccepted();
        UpdateCDS(cdsOk);
      }
    }

    /** The common part of the three filter commands: find the entry and change one of its filters. */
    method SetFilterCmd(id: MsgId, k: nat, valid: bool, change: Parms -> Parms)
      requires Valid() && (filter.Some? ==> CanFindEntry(State(), id))
      modifies this`filter, this`cnt
      ensures Valid() && State() == ChangeFilter(old(State()), id, k, valid, change)
    {
      hide SearchEnds, Find, Mids;
      ghost var before := State();
      if !HashRuns.IsValidMsgId(id) || k >= FILTERS || !valid || filter.None? {
        CountRejected();
        return;
      }
      var r := index.FindMsgID(Mids(filter.value), id);
      assert r == Lookup(before, id);
      if r == -1 {
        CountRejected();
        return;
      }
      var entry := filter.value[r];
      entry := entry.(filters := entry.filters[k := change(entry.filters[k])]);
      filter := Some(filter.value[r := entry]);
      CountAccepted();
    }

    /** `DS_SetFilterFileCmd`. */
    method SetFilterFileCmd(id: MsgId, k: nat, fileIndex: nat)
      requires Valid() && (filter.Some? ==> CanFindEntry(State(), id))
      modifies this`filter, this`cnt
      ensures Valid() && State() == Apply(old(State()), SetFilterFile(id, k, fileIndex))
    {
      hide ChangeFilter;
      SetFilterCmd(id, k, fileIndex < DEST_FILES, (f: Parms) => f.(fileIndex := fileIndex));
    }

    /** `DS_SetFilterTypeCmd`. */
    method SetFilterTypeCmd(id: MsgId, k: nat, filterType: nat)
      requires Valid() && (filter.Some? ==> CanFindEntry(State(), id))
      modifies this`filter, this`cnt
      ensures Valid() && State() == Apply(old(State()), SetFilterType(id, k, filterType))
    {
      hide ChangeFilter;
      SetFilterCmd(id, k, VerifyType(filterType), (f: Parms) => f.(filterType := filterType));
    }

    /** `DS_SetFilterParmsCmd`. */
    method SetFilterParmsCmd(id: MsgId, k: nat, n: nat, x: nat, o: nat)
      requires Valid() && (filter.Some? ==> CanFindEntry(State(), id))
      modifies this`filter, this`cnt
      ensures Valid() && State() == Apply(old(State()), SetFilterParms(id, k, n, x, o))
    {
      hide ChangeFilter;
      SetFilterCmd(id, k, VerifyParms(n, x, o), (f: Parms) => f.(n := n, x := x, o := o));
    }

    /** `DS_SetDestStateCmd`. */
    method SetDestStateCmd(i: nat, state: nat)
      requires Valid()
      modifies this`dest, this`cnt, slots
      ensures Valid() && State() == Apply(old(State()), SetDestState(i, state))
    {
      if i >= DEST_FILES || !VerifyState(state) || dest.None? {
        CountRejected();
      } else {
        dest := Some(dest.value[i := dest.value[i].(enableState := state)]);
        slots[i] := slots[i].(state := state);
        CountAccepted();
      }
    }

    /** `DS_SetDestCountCmd`. */
    method SetDestCountCmd(i: nat, count: nat, cdsOk: bool)
      requires Valid()
      modifies this`dest, this`cds, this`cnt, slots
      ensures Valid() && State() == Apply(old(State()), SetDestCount(i, count, cdsOk))
    {
      ghost var before := State();
      if i >= DEST_FILES || count > MAX_SEQUENCE_COUNT || dest.None? {
        CountRejected();
      } else {
        dest := Some(dest.value[i := dest.value[i].(seqCount := count)]);
        slots[i] := slots[i].(count := count);
        assert slots[..] == before.core.slots[i := slots[i]];
        UpdateCDS(cdsOk);
        CountAccepted();
      }
    }

    /** `DS_CloseFileCmd`. */
    method CloseFileCmd(i: nat, io: CloseOutcome)
      requires Valid() && FilesHaveTable()
      modifies this`os, this`cnt, slots
      ensures Valid() && State() == Apply(old(State()), CloseFile(i, io))
    {
      hide DestFile.CloseDest, DestFile.UpdateHeader, UpdateCds, ChangeFilter, AddMidCmd, RemoveMidCmd, CloseAll,
          CanApply;
      ghost var before := State();
      if i >= DEST_FILES {
        CountRejected();
      } else {
        if slots[i].handle.Some? {
          FinishFile(i, io.update, io.close);
        }
        assert Files() == CloseOne(before.core, before.dest, i, io);
        assert index.State() == before.ix;
        CountAccepted();
      }
    }

    /** `DS_CloseAllCmd`. */
    method CloseAllCmd(ios: CloseIos)
      requires Valid() && FilesHaveTable()
      modifies this`os, this`cnt, slots
      ensures Valid() && State() == Apply(old(State()), CloseAllFiles(ios))
    {
      hide DestFile.CloseDest, DestFile.UpdateHeader;
      ghost var before := State();
      for i := 0 to DEST_FILES
        invariant Valid() && Files() == CloseAll(old(Files()), dest, ios, i)
        invariant FilesHaveTable()
        invariant cnt == before.cnt
      {
        if slots[i].handle.Some? {
          FinishFile(i, ios[i].update, ios[i].close);
        }
      }
      assert index.State() == before.ix;
      CountAccepted();
    }

    /** The loop that ADD MID and REMOVE MID share: every filter of entry `r` is reset. */
    method ResetFilters(r: nat)
      requires filter.Some? && r < ENTRIES
      modifies this`filter
      ensures filter.Some? && filter.value == old(filter).value[r := ResetEntry(old(filter).value[r].mid)]
    {
      var entry := filter.value[r];
      for k := 0 to FILTERS
        invariant entry.mid == old(filter).value[r].mid
        invariant forall j | 0 <= j < k :: entry.filters[j] == RESET_FILTER
      {
        entry := entry.(filters := entry.filters[k := RESET_FILTER]);
      }
      assert entry.filters == ResetEntry(entry.mid).filters;
      filter := Some(filter.value[r := entry]);
    }

    /** `DS_AddMIDCmd`, where its searches end. */
    method AddMIDCmd(id: MsgId)
      requires Valid() && CanAdd(State(), id)
      modifies this`filter, this`subs, this`added, this`cnt, index.links, index.heads
      ensures Valid() && State() == AddMidCmd(old(State()), id)
    {
      hide SearchEnds, Find, Mids, Add, Ends, WellFormed;
      ghost var before := State();
      if !HashRuns.IsValidMsgId(id) || filter.None? {
        CountRejected();
        return;
      }
      var table := filter.value;
      var r := index.FindMsgID(Mids(table), id);
      assert r == Lookup(before, id);
      if r != -1 {
        CountRejected();
        return;
      }
      r := index.FindMsgID(Mids(table), INVALID_MSG_ID);
      assert r == Lookup(before, INVALID_MSG_ID);
      if r == -1 {
        CountRejected();
        return;
      }
      filter := Some(table[r := table[r].(mid := id)]);
      var _ := index.AddMsgID(id, r);
      ResetFilters(r);
      assert filter.value == table[r := ResetEntry(id)];
      added := added + [Hash(id)];
      subs := subs + {id};
      CountAccepted();
      assert slots[..] == before.core.slots;
    }

    /** `DS_RemoveMIDCmd`, where its search ends. */
    method RemoveMIDCmd(id: MsgId)
      requires Valid() && CanFindEntry(State(), id)
      modifies this`filter, this`subs, this`added, this`cnt, index.links, index.heads
      ensures Valid() && State() == RemoveMidCmd(old(State()), id)
    {
      hide SearchEnds, Find, Build;
      ghost var before := State();
      var r := index.FindMsgID(MidsOf(filter), id);
      assert r == Lookup(before, id);
      if !HashRuns.IsValidMsgId(id) || filter.None? || r == -1 {
        CountRejected();
        return;
      }
      var table := filter.value;
      filter := Some(table[r := table[r].(mid := INVALID_MSG_ID)]);
      index.CreateHash(Mids(filter.value));
      ghost var reset := table[r := ResetEntry(INVALID_MSG_ID)];
      assert Mids(filter.value) == Mids(reset);
      ResetFilters(r);
      assert filter.value == reset;
      added := [];
      subs := subs - {id};
      CountAccepted();
      assert slots[..] == before.core.slots;
    }

    /** `CFE_SB_MessageStringGet` into a field of the table. */
    static method RefillField(field: seq<char>, text: seq<char>) returns (r: seq<char>)
      requires |field| > 0
      ensures r == Refill(field, text)
    {
      var buffer := new char[|field|](k requires 0 <= k < |field| => field[k]);
      assert buffer[..] == field;
      NameBuffer.MessageStringGet(buffer, 0, |field|, text);
      ghost var s := NameBuffer.Take(CStr(text), |field| - 1);
      assert buffer[..] == buffer[0..0 + |s|] + [buffer[|s|]] + buffer[|s| + 1..];
      r := buffer[..];
    }

    /** `DS_SetDestTypeCmd`. */
    method SetDestTypeCmd(i: nat, nameType: nat)
      requires Valid()
      modifies this`dest, this`cnt
      ensures Valid() && State() == Apply(old(State()), SetDestType(i, nameType))
    {
      if i >= DEST_FILES || !VerifyType(nameType) || dest.None? {
        CountRejected();
      } else {
        dest := Some(dest.value[i := dest.value[i].(nameType := nameType)]);
        CountAccepted();
      }
    }

    /** `DS_SetDestPathCmd`. */
    method SetDestPathCmd(i: nat, text: seq<char>)
      requires Valid()
      modifies this`dest, this`cnt
      ensures Valid() && State() == Apply(old(State()), SetDestPath(i, text))
    {
      if i >= DEST_FILES || dest.None? {
        CountRejected();
      } else {
        var field := RefillField(dest.value[i].parts.path, text);
        dest := Some(dest.value[i := dest.value[i].(parts := dest.value[i].parts.(path := field))]);
        CountAccepted();
      }
    }

    /** `DS_SetDestBaseCmd`. */
    method SetDestBaseCmd(i: nat, text: seq<char>)
      requires Valid()
      modifies this`dest, this`cnt
      ensures Valid() && State() == Apply(old(State()), SetDestBase(i, text))
    {
      if i >= DEST_FILES || dest.None? {
        CountRejected();
      } else {
        var field := RefillField(dest.value[i].parts.base, text);
        dest := Some(dest.value[i := dest.value[i].(parts := dest.value[i].parts.(base := field))]);
        CountAccepted();
      }
    }

    /** `DS_SetDestExtCmd`. */
    method SetDestExtCmd(i: nat, text: seq<char>)
      requires Valid()
      modifies this`dest, this`cnt
      ensures Valid() && State() == Apply(old(State()), SetDestExt(i, text))
    {
      if i >= DEST_FILES || dest.None? {
        CountRejected();
      } else {
        var field := RefillField(dest.value[i].parts.ext, text);
        dest := Some(dest.value[i := dest.value[i].(parts := dest.value[i].parts.(ext := field))]);
        CountAccepted();
      }
    }

    /** `DS_SetDestSizeCmd`. */
    method SetDestSizeCmd(i: nat, maxSize: Word32)
      requires Valid()
      modifies this`dest, this`cnt
      ensures Valid() && State() == Apply(old(State()), SetDestSize(i, maxSize))
    {
      if i >= DEST_FILES || maxSize < MIN_SIZE_LIMIT || dest.None? {
        CountRejected();
      } else {
        dest := Some(dest.value[i := dest.value[i].(maxSize := maxSize)]);
        CountAccepted();
      }
    }

    /** `DS_SetDestAgeCmd`. */
    method SetDestAgeCmd(i: nat, maxAge: Word32)
      requires Valid()
      modifies this`dest, this`cnt
      ensures Valid() && State() == Apply(old(State()), SetDestAge(i, maxAge))
    {
      if i >= DEST_FILES || maxAge < MIN_AGE_LIMIT || dest.None? {
        CountRejected();
      } else {
        dest := Some(dest.value[i := dest.value[i].(maxAge := maxAge)]);
        CountAccepted();
      }
    }

    // ----- ds_dispatch.c

    /** The cases of `DS_AppProcessCmd` for the commands that change one field of one destination table entry. */
    method ProcessEntryCmd(cmd: Command)
      requires Valid()
      requires cmd.SetDestType? || cmd.SetDestPath? || cmd.SetDestBase? || cmd.SetDestExt? || cmd.SetDestSize?
               || cmd.SetDestAge?
      modifies this`dest, this`cnt
      ensures Valid() && State() == Apply(old(State()), cmd)
    {
      hide Apply;
      match cmd
      case SetDestType(i, nameType) => SetDestTypeCmd(i, nameType);
      case SetDestPath(i, text) => SetDestPathCmd(i, text);
      case SetDestBase(i, text) => SetDestBaseCmd(i, text);
      case SetDestExt(i, text) => SetDestExtCmd(i, text);
      case SetDestSize(i, maxSize) => SetDestSizeCmd(i, maxSize);
      case SetDestAge(i, maxAge) => SetDestAgeCmd(i, maxAge);
    }

    /** `DS_AppProcessCmd`. */
    method AppProcessCmd(cmd: Command)
      requires Valid() && FilesHaveTable() && CanApply(State(), cmd)
      modifies this`os, this`cds, this`enabled, this`dest, this`filter, this`cnt, this`subs, this`added, this`attempts,
               slots, index.links, index.heads
      ensures Valid() && State() == Apply(old(State()), cmd)
    {
      hide Find, SearchEnds, Build, Add, CloseAll, CloseOne, Mids, AddMidCmd, RemoveMidCmd, ChangeFilter, ApplyToEntry,
           UpdateCds, SetEntry, SetSlot, VerifyParms, VerifyType, VerifyState;
      match cmd
      case Malformed => CountRejected();
      case Noop => CountAccepted();
      case GetFileInfo => CountAccepted();
      case ResetCounters => ResetCountersCmd();
      case SetAppState(state, cdsOk) => SetAppStateCmd(state, cdsOk);
      case SetFilterFile(id, k, fileIndex) => SetFilterFileCmd(id, k, fileIndex);
      case SetFilterType(id, k, filterType) => SetFilterTypeCmd(id, k, filterType);
      case SetFilterParms(id, k, n, x, o) => SetFilterParmsCmd(id, k, n, x, o);
      case SetDestState(i, state) => SetDestStateCmd(i, state);
      case SetDestCount(i, count, cdsOk) => SetDestCountCmd(i, count, cdsOk);
      case CloseFile(i, io) => CloseFileCmd(i, io);
      case CloseAllFiles(ios) => CloseAllCmd(ios);
      case AddMID(id) => AddMIDCmd(id);
      case RemoveMID(id) => RemoveMIDCmd(id);
      case _ => ProcessEntryCmd(cmd);
    }

    /** `DS_AppSendHkCmd`. */
    method AppSendHkCmd(ios: CloseIos, destLoad: Option<DestTable>, cdsOk: bool, filterLoad: Option<FilterTable>)
      requires Valid()
      modifies this`os, this`cds, this`dest, this`filter, this`subs, this`added, slots, index.links, index.heads
      ensures Valid() && State() == Housekeeping(old(State()), ios, destLoad, cdsOk, filterLoad)
    {
      hide AgeAll, Build, UpdateCds;
      ghost var before := State();
      TestAge(ios);
      assert index.State() == before.ix;
      ManageDestFile(destLoad, cdsOk);
      ManageFilterTable(filterLoad);
      ghost var loaded := State();
      for i := 0 to DEST_FILES
        invariant Valid() && State() == loaded.(core := loaded.core.(slots := slots[..]))
        invariant forall j | 0 <= j < i :: slots[j] == Rate(loaded.core.slots[j])
        invariant forall j | i <= j < DEST_FILES :: slots[j] == loaded.core.slots[j]
      {
        slots[i] := slots[i].(rate := slots[i].growth / SECS_PER_HK_CYCLE);
        slots[i] := slots[i].(growth := 0);
      }
      assert slots[..] == Rates(loaded.core.slots);
    }

    /** `DS_AppStorePacket`. */
    method AppStorePacket(p: Packet, ios: StoreIos)
      requires Valid() && CanStore(State(), p)
      modifies this`os, this`cds, this`cnt, this`attempts, slots
      ensures Valid() && State() == StorePacket(old(State()), p, ios)
    {
      hide StoreFilters, SearchEnds, Find, Mids;
      if enabled == DISABLED {
        attempts := attempts + 1;
        cnt := cnt.(disabled := (cnt.disabled + 1) % U32);
      } else if filter.None? || dest.None? {
        attempts := attempts + 1;
        cnt := cnt.(ignored := (cnt.ignored + 1) % U32);
      } else {
        FileStorePacket(p, ios);
      }
    }

    /** `DS_AppProcessMsg`, and the timeout branch of `DS_AppMain`: wherever the machine can take a step, this takes
        it. */
    method AppProcessMsg(ev: Event, p: Packet, ios: StoreIos, ghost mid: App, ghost after: App)
      requires Valid() && FilesHaveTable() && Step(State(), ev, mid, p, ios, after)
      modifies this`os, this`cds, this`enabled, this`dest, this`filter, this`cnt, this`subs, this`added, this`attempts,
               slots, index.links, index.heads
      ensures Valid() && State() == after
    {
      hide Apply, Housekeeping, StorePacket, SearchEnds, Find, Mids, CanApply;
      match ev {
        case Data =>
        case CommandMsg(cmd) =>
          AppProcessCmd(cmd);
        case HkRequest(wellFormed, closes, destLoad, cdsOk, filterLoad) =>
          if wellFormed {
            AppSendHkCmd(closes, destLoad, cdsOk, filterLoad);
          } else {
            CountRejected();
          }
        case Timeout(destLoad, cdsOk, filterLoad) =>
          ManageDestFile(destLoad, cdsOk);
          ManageFilterTable(filterLoad);
      }
      assert State() == mid;
      match ev {
        case Timeout(_, _, _) =>
        case Data => AppStorePacket(p, ios);
        case _ =>
          var r := index.FindMsgID(MidsOf(filter), p.mid);
          assert r == Lookup(mid, p.mid);
          if r != -1 {
            AppStorePacket(p, ios);
          }
      }
    }
  }
}
