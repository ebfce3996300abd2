/** What happens to a file whose name is used again, and three ways to get there. */
module NameReuse {
  import opened FileName
  import opened FileFormat
  import opened FilterAlgorithm
  import opened FileSystem
  import opened DestFile
  import opened DestFileProofs
  import opened DestDisk
  import opened DestKept

  /** Creating a file destroys whatever file stands under the name. */
  lemma ReuseDestroys(i: nat, w: World, e: Entry, io: CreateIo, name: string, life: nat)
    requires CreateReady(i, w, e, io) && Sound(w.s, w.os.ops) && io.handle.Some?
    requires NameFor(e.parts, SequenceText(e.nameType, w.s.count, io.clock)) == Some(name)
    requires life < |w.os.ops| && Stands(Replay(w.os.ops), name, life)
    ensures w.os.ops + [Create(io.handle.value, name)] <= CreateDest(w, e, i, io).os.ops
    ensures !OnDisk(Replay(CreateDest(w, e, i, io).os.ops), life)
  {
    hide Sound, WriteHeader, NameBytes, History, SequenceText, NameFor;
    NameForIsUsable(e.parts, SequenceText(e.nameType, w.s.count, io.clock));
    var w0 := World(Blank(w.s, e, i, name, io.handle, |w.os.ops|), Opened(w.os, io.handle.value, name), w.synced);
    CreateStep(w, e, i, name, io.handle);
    StepIsSound(w, w0);
    WriteHeaderStep(i, w0, e, io);
    var ops, ops' := w.os.ops, CreateDest(w, e, i, io).os.ops;
    assert ops' == WriteHeader(w0, e, i, io).os.ops;
    GoneForGood(ops, Create(io.handle.value, name), ops', life);
  }

  lemma GoneForGood(ops: seq<Op>, op: Op, ops': seq<Op>, life: nat)
    requires life < |ops| && Destroys(Replay(ops), op, life) && ops + [op] <= ops'
    ensures !OnDisk(Replay(ops'), life)
  {
    hide Replay, Destroys;
    var q := |ops|;
    assert ops'[..q] == ops && ops'[q] == op && ops'[..|ops'|] == ops';
    OnDiskIff(ops', q, |ops'|, life);
  }

  lemma StillGone(ops: seq<Op>, ops': seq<Op>, life: nat)
    requires life < |ops| && !OnDisk(Replay(ops), life) && ops <= ops'
    ensures !OnDisk(Replay(ops'), life)
  {
    assert ops'[..|ops|] == ops && ops'[..|ops'|] == ops';
    OnDiskIff(ops', |ops|, |ops'|, life);
  }

  // ----- The files of the three examples

  lemma WriteStands(s: Slot, os: Os, b: Bytes, written: nat)
    requires Sound(s, os.ops) && s.handle.Some? && Stands(Replay(os.ops), s.name, s.life)
    ensures Stands(Replay(UseToWrite(os, s, b, written).ops), s.name, s.life)
  {
    hide Replay, Stands;
    OwnWriteKeeps(os.ops, s.handle.value, s.pos, Prefix(b, written), s.name, s.life);
  }

  /** The OS outcomes under which a new file takes its first packet. */
  ghost predicate Works(w: World, e: Entry, p: Bytes, io: SetupIo) {
    && Promised(io, w.os) && Framed(p) && Nameable(e, w.s.count, io.create.clock)
    && io.create.handle.Some? && HeadersWritten(io.create) && io.write.written == |p|
  }

  ghost predicate Idle(i: nat, w: World, e: Entry) {
    && EntryFits(e) && History(i, w.s) && ClosedShape(w.s) && !w.os.fault && Sound(w.s, w.os.ops)
  }

  /** The file that a successful creation and a first packet leave behind. */
  ghost predicate OneFile(w: World, w': World, handle: Option<nat>, name: string, p: Bytes) {
    && handle.Some? && w'.s.handle == handle && w'.s.name == name && w'.s.packets == [p] && w'.s.log == w.s.log
    && w'.s.life == |w.os.ops| && w.os.ops < w'.os.ops && Stands(Replay(w'.os.ops), name, w'.s.life)
  }

  lemma HeadersStand(i: nat, w: World, e: Entry, io: CreateIo)
    requires Sound(w.s, w.os.ops) && w.s.handle.Some? && Holds(w.os, w.s.handle) && w.s.pos == |w.s.data|
    requires SEPARATOR in w.s.name && HeadersWritten(io) && Stands(Replay(w.os.ops), w.s.name, w.s.life)
    ensures var w' := WriteHeader(w, e, i, io);
            && w'.s.handle == w.s.handle && w'.s.name == w.s.name && w'.s.life == w.s.life && w'.s.log == w.s.log
            && w.os.ops <= w'.os.ops && Stands(Replay(w'.os.ops), w.s.name, w.s.life)
  {
    hide Sound, Stands, Overlay, Prefix, DsHeader, NameBytes, WriteError;
    WriteAtEnd(w.s, io.fsHeader, io.fsWritten);
    var s1 := WriteBytes(w.s, io.fsHeader, io.fsWritten);
    var g1 := World(Grow(s1, FS_HEADER_SIZE), UseToWrite(w.os, w.s, io.fsHeader, io.fsWritten), w.synced);
    WriteOrFail(w, io.fsHeader, io.fsWritten, g1, e, io.close, true);
    WriteStands(w.s, w.os, io.fsHeader, io.fsWritten);
    WriteStands(g1.s, g1.os, DsHeader(i, e.nameType, NameBytes(w.s.name)), io.dsWritten);
  }

  lemma CreateStands(i: nat, w: World, e: Entry, io: CreateIo, name: string)
    requires CreateReady(i, w, e, io) && Sound(w.s, w.os.ops) && io.handle.Some? && HeadersWritten(io)
    requires NameFor(e.parts, SequenceText(e.nameType, w.s.count, io.clock)) == Some(name)
    ensures var w' := CreateDest(w, e, i, io);
            && w'.s.handle == io.handle && w'.s.name == name && w'.s.life == |w.os.ops| && w'.s.log == w.s.log
            && w.os.ops < w'.os.ops && Stands(Replay(w'.os.ops), name, w'.s.life)
  {
    hide Sound, Stands, NameBytes, SequenceText, NameFor, History, WriteHeader, Overlay;
    NameForIsUsable(e.parts, SequenceText(e.nameType, w.s.count, io.clock));
    var w0 := World(Blank(w.s, e, i, name, io.handle, |w.os.ops|), Opened(w.os, io.handle.value, name), w.synced);
    CreateStep(w, e, i, name, io.handle);
    StepIsSound(w, w0);
    CreatedKnown(w.os.ops, io.handle.value, name);
    HeadersStand(i, w0, e, io);
  }

  lemma NewFileStands(i: nat, w: World, e: Entry, p: Bytes, io: SetupIo)
    requires Idle(i, w, e) && Works(w, e, p, io)
    ensures var name := NameFor(e.parts, SequenceText(e.nameType, w.s.count, io.create.clock)).value;
            OneFile(w, NewFile(w, e, i, p, io), io.create.handle, name, p)
  {
    hide Sound, Stands, NameBytes, SequenceText, NameFor, Image, AllFramed, CreateDest, Overlay;
    var name := NameFor(e.parts, SequenceText(e.nameType, w.s.count, io.create.clock)).value;
    CreateStands(i, w, e, io.create, name);
    CreateDestIs(i, w, e, io.create);
    CreateDestStep(i, w, e, io.create);
    var w1 := CreateDest(w, e, i, io.create);
    StepIsSound(w, w1);
    WriteStands(w1.s, w1.os, p, io.write.written);
  }

  lemma CloseStands(i: nat, w: World, e: Entry, update: UpdateIo, close: CloseIo)
    requires SlotInv(i, w.s) && w.s.handle.Some? && Holds(w.os, w.s.handle) && |update.time| == TIME_SIZE
    requires Sound(w.s, w.os.ops) && Stands(Replay(w.os.ops), w.s.name, w.s.life) && CStr(e.movename) == []
    ensures var w' := CloseDest(UpdateHeader(w, update), e, close);
            && w'.s.log != [] && w.os.ops <= w'.os.ops
            && var f := w'.s.log[|w'.s.log| - 1];
               && f.name == w.s.name && f.packets == w.s.packets && f.life == w.s.life
               && Stands(Replay(w'.os.ops), f.name, f.life)
  {
    hide Sound, Stands, Overlay, Prefix, History, Image, AllFramed;
    if update.sought {
      var s := w.s.(pos := FS_HEADER_SIZE);
      SoundAt(w.s, s, w.os.ops);
      WriteStands(s, w.os, update.time, update.written);
    }
  }

  // ----- Three ways to lose a stored packet

  /** Every OS call succeeds. */
  function AllWell(h: nat, clock: ClockText, p: Bytes): SetupIo {
    var fs := FsBytes(FsHeader(0, 0, 0, 0, 0, 0, 0, []));
    SetupIo(UpdateIo(true, seq(TIME_SIZE, i => 0), TIME_SIZE), CloseIo(true),
            CreateIo(Some(h), clock, fs, FS_HEADER_SIZE, DS_HEADER_SIZE, CloseIo(true)), WriteIo(|p|, CloseIo(true)))
  }

  lemma AllWellWorks(w: World, e: Entry, p: Bytes, h: nat, clock: ClockText)
    requires Framed(p) && h !in w.os.open && Nameable(e, w.s.count, clock)
    ensures Works(w, e, p, AllWell(h, clock, p)) && Bounded(AllWell(h, clock, p), p)
  {
  }

  lemma AllWellIs(h: nat, clock: ClockText, p: Bytes)
    ensures var io := AllWell(h, clock, p);
            |io.update.time| == TIME_SIZE && io.create.clock == clock && io.create.handle == Some(h)
  {
  }

  /** An idle destination, nothing stored yet, whose entry is fit to name files. */
  ghost predicate Ready(i: nat, w: World, e: Entry, clock: ClockText) {
    Idle(i, w, e) && Nameable(e, w.s.count, clock) && CStr(e.movename) == []
  }

  /** (a) By count: store, close, set the count back, store. The second file takes the first one's name and destroys it,
      although every OS call succeeds. */
  lemma SetCountBackLosesFile(i: nat, w: World, e: Entry, p: Bytes, q: Bytes, h: nat, clock: ClockText)
    requires Ready(i, w, e, clock) && e.nameType == BY_COUNT && Framed(p) && Framed(q) && h !in w.os.open
    ensures var io := AllWell(h, clock, p);
            var w2 := CloseIfOpen(SetupWrite(w, e, i, p, io), e, io.update, io.close);
            var w4 := SetupWrite(w2.(s := w2.s.(count := w.s.count)), e, i, q, AllWell(h, clock, q));
            && w2.s.log != []
            && var f := w2.s.log[|w2.s.log| - 1];
               && f.packets == [p] && OnDisk(Replay(w2.os.ops), f.life)
               && w4.s.packets == [q] && w4.s.name == f.name && !OnDisk(Replay(w4.os.ops), f.life)
  {
    hide Sound, Stands, NameBytes, SequenceText, NameFor, Image, AllFramed, NewFile, UpdateHeader, CloseDest, AllWell;
    var io, io2 := AllWell(h, clock, p), AllWell(h, clock, q);
    AllWellWorks(w, e, p, h, clock);
    AllWellIs(h, clock, p);
    AllWellIs(h, clock, q);
    var w1 := SetupWrite(w, e, i, p, io);
    NewFileStands(i, w, e, p, io);
    NewFileIs(i, w, e, p, io);
    NewFileStep(i, w, e, p, io);
    StepIsSound(w, w1);
    var w2 := CloseIfOpen(w1, e, io.update, io.close);
    CloseStands(i, w1, e, io.update, io.close);
    CloseRegularlyStep(i, w1, e, io.update, io.close);
    StepIsSound(w1, w2);
    var w3 := w2.(s := w2.s.(count := w.s.count));
    SoundAt(w2.s, w3.s, w2.os.ops);
    AllWellWorks(w3, e, q, h, clock);
    var f := w2.s.log[|w2.s.log| - 1];
    SameNameAgain(i, w3, e, q, io2, f.name, f.life);
    NewFileStands(i, w3, e, q, io2);
  }

  /** A new file under the name of one that stands on disk. */
  lemma SameNameAgain(i: nat, w: World, e: Entry, p: Bytes, io: SetupIo, name: string, life: nat)
    requires Idle(i, w, e) && Works(w, e, p, io)
    requires NameFor(e.parts, SequenceText(e.nameType, w.s.count, io.create.clock)) == Some(name)
    requires life < |w.os.ops| && Stands(Replay(w.os.ops), name, life)
    ensures var w' := NewFile(w, e, i, p, io); w'.s.name == name && !OnDisk(Replay(w'.os.ops), life)
  {
    hide Sound, Stands, NameBytes, SequenceText, NameFor, History, CreateDest, WriteData;
    NewFileStands(i, w, e, p, io);
    ReuseDestroys(i, w, e, io.create, name, life);
    CreateDestIs(i, w, e, io.create);
    CreateDestStep(i, w, e, io.create);
    var w1 := CreateDest(w, e, i, io.create);
    StepIsSound(w, w1);
    if w1.s.handle.Some? {
      WriteDataStep(w1, e, p, io.write);
      StillGone(w1.os.ops, WriteData(w1, e, p, io.write).os.ops, life);
    }
  }

  /** (b) By time: two rotations by size within one second. The second file takes the first one's name and destroys it,
      although every OS call succeeds. */
  lemma SameSecondLosesFile(i: nat, w: World, e: Entry, p: Bytes, q: Bytes, h: nat, clock: ClockText)
    requires Ready(i, w, e, clock) && e.nameType == BY_TIME && Framed(p) && Framed(q) && h !in w.os.open
    requires HEADER_SIZE + |p| + |q| > e.maxSize
    ensures var w1 := SetupWrite(w, e, i, p, AllWell(h, clock, p));
            var w2 := SetupWrite(w1, e, i, q, AllWell(h, clock, q));
            && w1.s.packets == [p] && OnDisk(Replay(w1.os.ops), w1.s.life)
            && w2.s.packets == [q] && w2.s.name == w1.s.name && !OnDisk(Replay(w2.os.ops), w1.s.life)
  {
    hide Sound, Stands, NameBytes, NameFor, Image, AllFramed, NewFile, UpdateHeader, CloseDest, AllWell;
    var io, io2 := AllWell(h, clock, p), AllWell(h, clock, q);
    AllWellWorks(w, e, p, h, clock);
    AllWellIs(h, clock, p);
    AllWellIs(h, clock, q);
    var w1 := SetupWrite(w, e, i, p, io);
    NewFileStands(i, w, e, p, io);
    NewFileIs(i, w, e, p, io);
    NewFileStep(i, w, e, p, io);
    StepIsSound(w, w1);
    OnePacketSize(i, w1.s, p);
    var w' := CloseDest(UpdateHeader(w1, io2.update), e, io2.close);
    CloseStands(i, w1, e, io2.update, io2.close);
    CloseRegularlyStep(i, w1, e, io2.update, io2.close);
    StepIsSound(w1, w');
    AllWellWorks(w', e, q, h, clock);
    SameNameAgain(i, w', e, q, io2, w1.s.name, w1.s.life);
    NewFileStands(i, w', e, q, io2);
  }

  lemma OnePacketSize(i: nat, s: Slot, p: Bytes)
    requires SlotInv(i, s) && s.handle.Some? && s.packets == [p]
    ensures s.size == HEADER_SIZE + |p|
  {
    assert Flatten([p]) == p;
  }

  /** (c) Two destinations whose entries yield one name: the second creation destroys the file that the first one
      still has open, although every OS call succeeds. */
  lemma SameNamesLoseFile(i: nat, j: nat, w: World, s: Slot, e: Entry, e': Entry, p: Bytes, q: Bytes, h: nat, h': nat,
                          clock: ClockText)
    requires Ready(i, w, e, clock) && Framed(p) && Framed(q) && h !in w.os.open && h' !in w.os.open && h' != h
    requires EntryFits(e') && ClosedShape(s) && History(j, s) && s.log == []
    requires NameFor(e'.parts, SequenceText(e'.nameType, s.count, clock)) ==
             NameFor(e.parts, SequenceText(e.nameType, w.s.count, clock))
    ensures var w1 := NewFile(w, e, i, p, AllWell(h, clock, p));
            var w2 := NewFile(w1.(s := s), e', j, q, AllWell(h', clock, q));
            && w1.s.packets == [p] && OnDisk(Replay(w1.os.ops), w1.s.life)
            && w2.s.name == w1.s.name && !OnDisk(Replay(w2.os.ops), w1.s.life)
  {
    hide Sound, Stands, NameBytes, NameFor, SequenceText, Image, AllFramed, NewFile, AllWell;
    AllWellWorks(w, e, p, h, clock);
    AllWellIs(h, clock, p);
    AllWellIs(h', clock, q);
    NewFileStands(i, w, e, p, AllWell(h, clock, p));
    NewFileIs(i, w, e, p, AllWell(h, clock, p));
    var w1 := NewFile(w, e, i, p, AllWell(h, clock, p));
    NothingYet(s, w1.os.ops);
    AllWellWorks(w1.(s := s), e', q, h', clock);
    SameNameAgain(j, w1.(s := s), e', q, AllWell(h', clock, q), w1.s.name, w1.s.life);
  }

  lemma NothingYet(s: Slot, ops: seq<Op>)
    requires s.handle.None? && s.log == []
    ensures Sound(s, ops)
  {
  }

  // ----- That the examples exist

  function Buffer(text: string, size: nat): (b: seq<char>)
    requires |text| <= size
    ensures |b| == size
  {
    text + seq(size - |text|, i => NUL)
  }

  /** A destination entry with the path "/" and neither base, extension nor downlink directory. */
  function PlainEntry(nameType: nat, maxSize: Word32): Entry {
    Entry(Buffer("", PATH_SIZE), NameParts(Buffer("/", PATH_SIZE), Buffer("", PATH_SIZE), Buffer("", EXT_SIZE)),
          nameType, ENABLED, maxSize, 60, 0)
  }

  /** Such an entry, with nothing stored yet, is one that all three examples apply to. */
  lemma PlainEntryIsReady(i: nat, nameType: nat, maxSize: Word32, clock: ClockText)
    ensures var s := Slot(None, 0, 0, 0, 0, 0, ENABLED, "", [], 0, 0, [], Header(0, 0, []), [], [], 0);
            Ready(i, World(s, Os({}, false, []), false), PlainEntry(nameType, maxSize), clock)
  {
    var e := PlainEntry(nameType, maxSize);
    CStrIs(e.parts.path, "/");
    CStrIs(e.movename, "");
    CStrIs(e.parts.base, "");
    CStrIs(e.parts.ext, "");
    assert |SequenceText(nameType, 0, clock)| <= 13;
  }
}
