/** What every step keeps about one destination, for every combination of OS outcomes. */
module DestFileProofs {
  import opened FileName
  import opened FileFormat
  import opened FilterAlgorithm
  import opened FileSystem
  import opened DestFile

  // ----- Invariants

  /** A table entry whose sequence count fits the digits of a name. */
  ghost predicate EntryFits(e: Entry) {
    e.seqCount <= MAX_SEQUENCE_COUNT
  }

  /** `data` is a headed file of destination `i` with the packet bytes `body`. */
  ghost predicate Image(i: nat, header: Header, data: Bytes, body: Bytes) {
    && header.fileIndex == i
    && Layout(data, i, header.nameType, header.name, body)
  }

  ghost predicate OpenShape(i: nat, s: Slot) {
    && s.handle.Some?
    && 0 < |s.name| < PATH_SIZE && SEPARATOR in s.name
    && s.size == |s.data| == s.pos < U32
    && s.header.name == NameBytes(s.name)
    && AllFramed(s.packets)
    && Image(i, s.header, s.data, Flatten(s.packets))
  }

  ghost predicate ClosedShape(s: Slot) {
    s.handle.None? && s.name == "" && s.age == 0 && s.size == 0 && s.data == [] && s.packets == [] && s.tests == 0
  }

  /** What is known of a file once it is closed: it lacks complete headers and holds no packet, or it holds
      the headers, whole packets, and at the end at most the beginning of another one. */
  ghost predicate Archived(i: nat, f: DiskFile) {
    || (|f.data| < HEADER_SIZE && f.packets == [])
    || (exists tail :: Partial(tail) && AllFramed(f.packets) && Image(i, f.header, f.data, Flatten(f.packets) + tail))
  }

  /** A file's name is the exact one for its number. */
  ghost predicate NamedByNumber(m: Made) {
    && m.number <= MAX_SEQUENCE_COUNT && CStr(m.parts.path) != []
    && m.name == ExactName(m.parts, Digits(m.number, SEQUENCE_DIGITS))
  }

  /** The count fits the digits of a name, and every numbered file has the name of its number. */
  ghost predicate Numbered(count: nat, made: seq<Made>) {
    && count <= MAX_SEQUENCE_COUNT
    && (forall k | 0 <= k < |made| :: NamedByNumber(made[k]))
  }

  ghost predicate AllArchived(i: nat, log: seq<DiskFile>) {
    forall k | 0 <= k < |log| :: Archived(i, log[k])
  }

  ghost predicate History(i: nat, s: Slot) {
    Numbered(s.count, s.made) && AllArchived(i, s.log)
  }

  /** The 32-bit age of a file after `c` age tests. */
  function AgeAfter(c: nat): nat {
    SECS_PER_HK_CYCLE * c % U32
  }

  lemma AgeStep(c: nat)
    ensures (AgeAfter(c) + SECS_PER_HK_CYCLE) % U32 == AgeAfter(c + 1)
    ensures AgeAfter(0) == 0
  {
  }

  /** Between any two messages: either closed, with nothing left of a file, or open with at least one packet
      and the size that the OS would report. */
  ghost predicate SlotInv(i: nat, s: Slot) {
    && History(i, s)
    && if s.handle.None? then ClosedShape(s)
       else OpenShape(i, s) && s.packets != [] && s.age == AgeAfter(s.tests)
  }

  ghost predicate Holds(os: Os, h: Option<nat>) {
    !os.fault && (h.Some? ==> h.value in os.open)
  }

  function Handles(h: Option<nat>): set<nat> {
    if h.Some? then {h.value} else {}
  }

  /** The step touched no other handle: it gave back `h` and holds `h'`, which is `h` or was free. */
  ghost predicate HandleMoves(os: Os, os': Os, h: Option<nat>, h': Option<nat>) {
    && Holds(os', h')
    && os'.open == os.open - Handles(h) + Handles(h')
    && (h' == h || h'.None? || h'.value !in os.open)
  }

  /** All packets written in full for this destination, in the order of its files. */
  function Stored(s: Slot): seq<Bytes> {
    Packets(s.log) + s.packets
  }

  function Packets(log: seq<DiskFile>): seq<Bytes> {
    if log == [] then [] else Packets(log[..|log| - 1]) + log[|log| - 1].packets
  }

  lemma PacketsAppend(log: seq<DiskFile>, f: DiskFile)
    ensures Packets(log + [f]) == Packets(log) + f.packets
  {
    assert (log + [f])[..|log|] == log;
  }

  // ----- Closing

  /** A file that may be closed now: named, and fit for the archive as it stands. */
  ghost predicate Closable(i: nat, s: Slot) {
    && History(i, s) && s.handle.Some? && SEPARATOR in s.name
    && Archived(i, DiskFile(s.name, s.data, s.packets, s.header, s.life))
  }

  /** No handle that is open with the OS. */
  predicate NotOpen(os: Os, h: Option<nat>) {
    h.None? || h.value !in os.open
  }

  /** When a write or a header update goes wrong: without an open handle. */
  lemma UseFaultIff(w: World, p: Bytes, io: WriteIo, e: Entry, update: UpdateIo)
    ensures io.written == |p| ==> (WriteData(w, e, p, io).os.fault <==> w.os.fault || NotOpen(w.os, w.s.handle))
    ensures UpdateHeader(w, update).os.fault <==> w.os.fault || NotOpen(w.os, w.s.handle)
  {
  }

  /** When a close goes wrong: without an open handle, or where a move is asked for and the name has no slash. */
  lemma CloseFaultIff(w: World, e: Entry, io: CloseIo)
    ensures CloseDest(w, e, io).os.fault <==>
            w.os.fault || NotOpen(w.os, w.s.handle) || (e.movename[0] != '\0' && '/' !in w.s.name)
  {
  }

  lemma CloseIs(i: nat, w: World, e: Entry, io: CloseIo)
    requires Closable(i, w.s) && Holds(w.os, w.s.handle)
    ensures var w' := CloseDest(w, e, io);
            && ClosedShape(w'.s) && History(i, w'.s)
            && HandleMoves(w.os, w'.os, w.s.handle, None)
            && Stored(w'.s) == Stored(w.s)
            && w'.s.state == w.s.state && w'.s.count == w.s.count && w'.synced == w.synced
            && w'.s.made == w.s.made
            && |w'.s.log| == |w.s.log| + 1 && w'.s.log[..|w.s.log|] == w.s.log
            && w'.s.log[|w.s.log|].data == w.s.data && w'.s.log[|w.s.log|].packets == w.s.packets
  {
    var w' := CloseDest(w, e, io);
    var f := w'.s.log[|w.s.log|];
    PacketsAppend(w.s.log, f);
    assert Stored(w'.s) == Packets(w.s.log + [f]) + [];
    ArchivedIgnoresName(i, DiskFile(w.s.name, w.s.data, w.s.packets, w.s.header, w.s.life), f);
  }

  /** The closed file keeps the last component of its name, moved or not, and its header. */
  lemma CloseKeepsFileName(w: World, e: Entry, io: CloseIo)
    requires SEPARATOR in w.s.name
    ensures var log := CloseDest(w, e, io).s.log;
            && log != []
            && log[|log| - 1].header == w.s.header
            && FromLastSlash(log[|log| - 1].name) == FromLastSlash(w.s.name)
            && (!io.moved || CStr(e.movename) == [] ==> log[|log| - 1].name == w.s.name)
  {
    hide FromLastSlash, MoveDirectory;
    MoveKeepsFileName(e.movename, w.s.name);
  }

  lemma ArchivedIgnoresName(i: nat, f: DiskFile, g: DiskFile)
    requires Archived(i, f) && g.data == f.data && g.packets == f.packets && g.header == f.header
    ensures Archived(i, g)
  {
  }

  lemma ImageIsArchived(i: nat, f: DiskFile, tail: Bytes)
    requires Partial(tail) && AllFramed(f.packets) && Image(i, f.header, f.data, Flatten(f.packets) + tail)
    ensures Archived(i, f)
  {
  }

  lemma OpenIsClosable(i: nat, s: Slot)
    requires History(i, s) && OpenShape(i, s)
    ensures Closable(i, s)
  {
    EmptyIsPartial();
    assert Flatten(s.packets) + [] == Flatten(s.packets);
    ImageIsArchived(i, DiskFile(s.name, s.data, s.packets, s.header, s.life), []);
  }

  /** Rewriting the close time, as far as it gets, changes nothing that a reader of the packets sees. */
  lemma UpdateKeepsClosable(i: nat, w: World, io: UpdateIo)
    requires History(i, w.s) && OpenShape(i, w.s) && Holds(w.os, w.s.handle) && |io.time| == TIME_SIZE
    ensures var w' := UpdateHeader(w, io);
            && Closable(i, w'.s) && w'.os.open == w.os.open && w'.os.fault == w.os.fault
            && w'.s.data[HEADER_SIZE..] == w.s.data[HEADER_SIZE..]
            && (io.sought && io.written == TIME_SIZE ==>
                  w'.s.data[FS_HEADER_SIZE..FS_HEADER_SIZE + TIME_SIZE] == io.time)
            && w'.synced == w.synced && w'.s == w.s.(data := w'.s.data, pos := w'.s.pos)
  {
    var w' := UpdateHeader(w, io);
    OpenIsClosable(i, w.s);
    if io.sought {
      var b := Prefix(io.time, io.written);
      assert w'.s.data == Overlay(w.s.data, FS_HEADER_SIZE, b);
      OverlayKeepsLayout(w.s.data, b, i, w.s.header.nameType, w.s.header.name, Flatten(w.s.packets));
      EmptyIsPartial();
      assert Flatten(w.s.packets) + [] == Flatten(w.s.packets);
      ImageIsArchived(i, DiskFile(w.s.name, w'.s.data, w.s.packets, w.s.header, w.s.life), []);
    }
  }

  /** Closed and untouched otherwise, with what was stored before. */
  ghost predicate ClosedRegularly(i: nat, w: World, w': World) {
    && SlotInv(i, w'.s) && w'.s.handle.None? && HandleMoves(w.os, w'.os, w.s.handle, None)
    && Stored(w'.s) == Stored(w.s) && w'.s.state == w.s.state && w'.s.count == w.s.count
    && w'.synced == w.synced && w'.s.made == w.s.made
    && |w'.s.log| == |w.s.log| + 1 && w'.s.log[..|w.s.log|] == w.s.log
  }

  /** Update and close together, as every regular close does it. */
  lemma RegularClose(i: nat, w: World, e: Entry, update: UpdateIo, close: CloseIo)
    requires History(i, w.s) && OpenShape(i, w.s) && Holds(w.os, w.s.handle) && |update.time| == TIME_SIZE
    ensures ClosedRegularly(i, w, CloseDest(UpdateHeader(w, update), e, close))
  {
    UpdateKeepsClosable(i, w, update);
    CloseIs(i, UpdateHeader(w, update), e, close);
  }

  // ----- Writing a packet

  lemma WriteAtEnd(s: Slot, b: Bytes, written: nat)
    requires s.pos == |s.data|
    ensures WriteBytes(s, b, written) == s.(data := s.data + Prefix(b, written), pos := s.pos + |Prefix(b, written)|)
  {
  }

  lemma LayoutExtends(file: Bytes, more: Bytes, fileIndex: nat, nameType: nat, name: Bytes, packets: Bytes)
    requires Layout(file, fileIndex, nameType, name, packets)
    ensures Layout(file + more, fileIndex, nameType, name, packets + more)
  {
    assert (file + more)[..4] == file[..4];
    assert (file + more)[72..HEADER_SIZE] == file[72..HEADER_SIZE];
    assert (file + more)[HEADER_SIZE..] == file[HEADER_SIZE..] + more;
  }

  /** The packet is at the end of the open file, which is otherwise as it was. */
  ghost predicate Wrote(i: nat, w: World, w': World, p: Bytes) {
    && History(i, w'.s) && OpenShape(i, w'.s) && HandleMoves(w.os, w'.os, w.s.handle, w'.s.handle)
    && w'.synced == w.synced
    && w'.s == w.s.(data := w'.s.data, pos := w'.s.pos, size := w.s.size + |p|, growth := w'.s.growth,
                    packets := w.s.packets + [p])
    && Stored(w'.s) == Stored(w.s) + [p]
  }

  /** The file is archived without the packet, the destination closed and disabled. */
  ghost predicate WriteFailed(i: nat, w: World, w': World) {
    && History(i, w'.s) && ClosedShape(w'.s) && HandleMoves(w.os, w'.os, w.s.handle, None)
    && w'.s.state == DISABLED && w'.synced == w.synced
    && w'.s.count == w.s.count && w'.s.made == w.s.made
    && w.s.log <= w'.s.log && Stored(w'.s) == Stored(w.s)
  }

  /** Writing a packet to an open file with room for it in 32 bits, for every outcome of `OS_write`,
      which never reports more than asked. */
  lemma WriteDataIs(i: nat, w: World, e: Entry, p: Bytes, io: WriteIo)
    requires History(i, w.s) && OpenShape(i, w.s) && Holds(w.os, w.s.handle)
    requires Framed(p) && w.s.size + |p| < U32 && io.written <= |p|
    ensures if io.written == |p| then Wrote(i, w, WriteData(w, e, p, io), p)
            else WriteFailed(i, w, WriteData(w, e, p, io))
  {
    if io.written == |p| {
      WriteWhole(i, w, e, p, io);
    } else {
      WriteCut(i, w, e, p, io);
    }
  }

  /** An open file with one packet more. */
  function Extended(s: Slot, p: Bytes): Slot {
    s.(data := s.data + p, pos := s.pos + |p|, size := s.size + |p|, growth := (s.growth + |p|) % U32,
       packets := s.packets + [p])
  }

  lemma WriteDataWhole(w: World, e: Entry, p: Bytes, io: WriteIo)
    requires w.s.pos == |w.s.data| && w.s.size + |p| < U32 && io.written == |p|
    requires w.s.handle.Some? && w.s.handle.value in w.os.open
    ensures WriteData(w, e, p, io) == World(Extended(w.s, p), UseToWrite(w.os, w.s, p, io.written), w.synced)
  {
    WriteAtEnd(w.s, p, io.written);
    assert Prefix(p, io.written) == p;
    assert (w.s.size + |p|) % U32 == w.s.size + |p|;
  }

  lemma ExtendedIsOpen(i: nat, s: Slot, p: Bytes)
    requires OpenShape(i, s) && Framed(p) && s.size + |p| < U32
    ensures OpenShape(i, Extended(s, p))
  {
    LayoutExtends(s.data, p, i, s.header.nameType, s.header.name, Flatten(s.packets));
    FlattenAppend(s.packets, p);
  }

  lemma WriteWhole(i: nat, w: World, e: Entry, p: Bytes, io: WriteIo)
    requires History(i, w.s) && OpenShape(i, w.s) && Holds(w.os, w.s.handle)
    requires Framed(p) && w.s.size + |p| < U32 && io.written == |p|
    ensures Wrote(i, w, WriteData(w, e, p, io), p)
  {
    hide AllArchived, Image, AllFramed, Framed, WriteData, WriteBytes, Prefix;
    WriteDataWhole(w, e, p, io);
    ExtendedIsOpen(i, w.s, p);
    assert Packets(w.s.log) + (w.s.packets + [p]) == Packets(w.s.log) + w.s.packets + [p];
  }

  lemma WriteCut(i: nat, w: World, e: Entry, p: Bytes, io: WriteIo)
    requires History(i, w.s) && OpenShape(i, w.s) && Holds(w.os, w.s.handle)
    requires Framed(p) && io.written < |p|
    ensures WriteFailed(i, w, WriteData(w, e, p, io))
  {
    WriteAtEnd(w.s, p, io.written);
    var b := Prefix(p, io.written);
    var s := w.s.(data := w.s.data + b, pos := w.s.pos + |b|);
    LayoutExtends(w.s.data, b, i, w.s.header.nameType, w.s.header.name, Flatten(w.s.packets));
    FrontIsPartial(p, io.written);
    ImageIsArchived(i, DiskFile(s.name, s.data, s.packets, s.header, s.life), b);
    CloseIs(i, w.(s := s), e, io.close);
  }

  // ----- Creating a file

  /** The outcomes of the OS calls that make a creation succeed. */
  predicate HeadersWritten(io: CreateIo) {
    io.fsWritten == FS_HEADER_SIZE && io.dsWritten == DS_HEADER_SIZE
  }

  lemma HeaderImage(i: nat, fs: Bytes, nameType: nat, name: Bytes)
    requires |fs| == FS_HEADER_SIZE && fs[..4] == MAGIC
    ensures Layout(fs + DsHeader(i, nameType, name), i, nameType, name, [])
  {
    var file := fs + DsHeader(i, nameType, name);
    assert file[..4] == fs[..4];
    assert file[72..HEADER_SIZE] == DsHeader(i, nameType, name)[TIME_SIZE..];
  }

  /** A file just opened, nothing written to it yet. */
  ghost predicate JustOpened(i: nat, s: Slot) {
    && s.handle.Some? && 0 < |s.name| < PATH_SIZE && SEPARATOR in s.name
    && s.size == 0 && s.pos == 0 && s.data == [] && s.packets == [] && s.age == 0 && s.tests == 0
    && s.header.fileIndex == i && s.header.name == NameBytes(s.name)
  }

  lemma WriteHeaderIs(i: nat, w: World, e: Entry, io: CreateIo)
    requires EntryFits(e) && History(i, w.s) && JustOpened(i, w.s) && Holds(w.os, w.s.handle)
    requires w.s.header.nameType == e.nameType
    requires |io.fsHeader| == FS_HEADER_SIZE && io.fsHeader[..4] == MAGIC
    requires io.fsWritten <= FS_HEADER_SIZE && io.dsWritten <= DS_HEADER_SIZE
    ensures var w' := WriteHeader(w, e, i, io);
            && History(i, w'.s) && w'.s.count == w.s.count && w'.synced == w.synced && w'.s.made == w.s.made
            && w'.s.life == w.s.life
            && HandleMoves(w.os, w'.os, w.s.handle, w'.s.handle) && Stored(w'.s) == Stored(w.s)
            && if HeadersWritten(io) then
                 && OpenShape(i, w'.s) && w'.s.handle == w.s.handle && w'.s.state == w.s.state
                 && w'.s.packets == [] && w'.s.log == w.s.log && w'.s.size == HEADER_SIZE
                 && w'.s.age == 0 && w'.s.tests == 0 && w'.s.name == w.s.name
               else
                 && ClosedShape(w'.s) && w'.s.state == DISABLED
                 && |w'.s.log| == |w.s.log| + 1 && w'.s.log[..|w.s.log|] == w.s.log
  {
    WriteAtEnd(w.s, io.fsHeader, io.fsWritten);
    var s1 := WriteBytes(w.s, io.fsHeader, io.fsWritten);
    var w1 := w.(s := s1, os := UseToWrite(w.os, w.s, io.fsHeader, io.fsWritten));
    if io.fsWritten != FS_HEADER_SIZE {
      CloseIs(i, w1, e, io.close);
    } else {
      var h := DsHeader(i, e.nameType, NameBytes(w.s.name));
      WriteAtEnd(Grow(s1, FS_HEADER_SIZE), h, io.dsWritten);
      var s2 := WriteBytes(Grow(s1, FS_HEADER_SIZE), h, io.dsWritten);
      if io.dsWritten != DS_HEADER_SIZE {
        CloseIs(i, w1.(s := s2, os := UseToWrite(w1.os, s1, h, io.dsWritten)), e, io.close);
      } else {
        assert s2.data == io.fsHeader + h;
        HeaderImage(i, io.fsHeader, e.nameType, NameBytes(w.s.name));
      }
    }
  }

  /** Whether a name can be built. */
  predicate Nameable(e: Entry, count: nat, clock: ClockText)
  {
    NameFor(e.parts, SequenceText(e.nameType, count, clock)).Some?
  }

  ghost predicate CreateReady(i: nat, w: World, e: Entry, io: CreateIo) {
    && EntryFits(e) && History(i, w.s) && ClosedShape(w.s) && !w.os.fault
    && |io.fsHeader| == FS_HEADER_SIZE && io.fsHeader[..4] == MAGIC
    && io.fsWritten <= FS_HEADER_SIZE && io.dsWritten <= DS_HEADER_SIZE
    && (io.handle.Some? ==> io.handle.value !in w.os.open)
  }

  /** An open file with headers and no packet yet, numbered if named by count. */
  ghost predicate Created(i: nat, w: World, w': World, e: Entry) {
    && History(i, w'.s) && OpenShape(i, w'.s) && HandleMoves(w.os, w'.os, None, w'.s.handle)
    && w'.s.state == w.s.state && w'.s.packets == [] && w'.s.log == w.s.log
    && w'.s.size == HEADER_SIZE && w'.s.age == 0 && w'.s.tests == 0
    && if e.nameType == BY_COUNT then
         && w'.synced && w'.s.count == NextCount(w.s.count, e)
         && w'.s.made == w.s.made + [Made(e.parts, w.s.count, w'.s.name)]
       else
         w'.synced == w.synced && w'.s.count == w.s.count && w'.s.made == w.s.made
  }

  /** The destination closed and disabled; a file whose headers failed is in the log. */
  ghost predicate NotCreated(i: nat, w: World, w': World) {
    && History(i, w'.s) && ClosedShape(w'.s) && HandleMoves(w.os, w'.os, None, None)
    && w'.s.state == DISABLED && w'.synced == w.synced && w'.s.count == w.s.count && w'.s.made == w.s.made
    && w.s.log <= w'.s.log && Stored(w'.s) == Stored(w.s)
  }

  /** `DS_FileCreateDest` on a closed destination, for every outcome of the OS calls. */
  lemma CreateDestIs(i: nat, w: World, e: Entry, io: CreateIo)
    requires CreateReady(i, w, e, io)
    ensures if Nameable(e, w.s.count, io.clock) && io.handle.Some? && HeadersWritten(io)
            then Created(i, w, CreateDest(w, e, i, io), e)
            else NotCreated(i, w, CreateDest(w, e, i, io))
  {
    if Nameable(e, w.s.count, io.clock) && io.handle.Some? {
      var text := SequenceText(e.nameType, w.s.count, io.clock);
      var name := NameFor(e.parts, text).value;
      NameForIsUsable(e.parts, text);
      CreateOpened(i, w, e, io, name);
    }
  }

  /** The text in 8-bit characters. */
  function TextOf(b: Bytes): string {
    seq(|b|, k requires 0 <= k < |b| => b[k] as char)
  }

  predicate EightBit(s: string) {
    forall c | c in s :: c < '\U{100}'
  }

  lemma TextBack(name: string)
    requires EightBit(name)
    ensures TextOf(NameBytes(name)) == name && (NUL !in name ==> 0 !in NameBytes(name))
  {
    assert forall k | 0 <= k < |name| :: name[k] in name;
  }

  /** The headers of a new file tell a reader its destination, its name type and its own name. */
  lemma HeaderNamesFile(i: nat, w: World, e: Entry, io: CreateIo)
    requires CreateReady(i, w, e, io) && io.handle.Some? && HeadersWritten(io) && i < 0x1_0000 && e.nameType < 0x1_0000
    requires Nameable(e, w.s.count, io.clock) && EightBit(CreateDest(w, e, i, io).s.name)
    ensures var s' := CreateDest(w, e, i, io).s;
            var parsed := ParseHeaders(s'.data);
            && parsed.File? && parsed.data == []
            && parsed.header.fileIndex == i && parsed.header.nameType == e.nameType
            && TextOf(parsed.header.name) == s'.name
  {
    var text := SequenceText(e.nameType, w.s.count, io.clock);
    var s' := CreateDest(w, e, i, io).s;
    NameForIsUsable(e.parts, text);
    CreateDestIs(i, w, e, io);
    assert s'.name == NameFor(e.parts, text).value && s'.header.nameType == e.nameType by {
      hide Overlay, Prefix, DsHeader, NameBytes, NameFor, SequenceText, CloseDest, History, OpenShape, CreateReady;
    }
    TextBack(s'.name);
    ParseOfLayout(s'.data, i, s'.header.nameType, s'.header.name, []);
  }

  lemma CreateOpened(i: nat, w: World, e: Entry, io: CreateIo, name: string)
    requires CreateReady(i, w, e, io) && io.handle.Some?
    requires 0 < |name| < PATH_SIZE && SEPARATOR in name
    requires NameFor(e.parts, SequenceText(e.nameType, w.s.count, io.clock)) == Some(name)
    ensures if HeadersWritten(io) then Created(i, w, CreateDest(w, e, i, io), e)
            else NotCreated(i, w, CreateDest(w, e, i, io))
  {
    var w0 := w.(s := Blank(w.s, e, i, name, io.handle, |w.os.ops|), os := Opened(w.os, io.handle.value, name));
    BlankIs(i, w.s, e, name, io.handle, |w.os.ops|);
    WriteHeaderIs(i, w0, e, io);
    var w1 := WriteHeader(w0, e, i, io);
    if HeadersWritten(io) {
      HeadedIsCreated(i, w, w0, w1, e, name);
    }
  }

  lemma HeadedIsCreated(i: nat, w: World, w0: World, w1: World, e: Entry, name: string)
    requires EntryFits(e) && !w.os.fault && History(i, w1.s) && OpenShape(i, w1.s)
    requires w0.s.handle.Some? && w0.s.handle.value !in w.os.open && w0.os.open == w.os.open + {w0.s.handle.value}
    requires HandleMoves(w0.os, w1.os, w0.s.handle, w1.s.handle) && w1.s.handle == w0.s.handle
    requires w1.s.count == w.s.count && w1.s.made == w.s.made && w1.s.log == w.s.log
    requires w1.s.state == w.s.state && w1.s.packets == [] && w1.s.size == HEADER_SIZE
    requires w1.s.age == 0 && w1.s.tests == 0 && w1.s.name == name && w1.synced == w.synced
    requires e.nameType == BY_COUNT ==>
               CStr(e.parts.path) != [] && name == ExactName(e.parts, Digits(w.s.count, SEQUENCE_DIGITS))
    ensures e.nameType != BY_COUNT ==> Created(i, w, w1, e)
    ensures e.nameType == BY_COUNT ==>
              var made := w.s.made + [Made(e.parts, w.s.count, name)];
              Created(i, w, w1.(s := w1.s.(count := NextCount(w.s.count, e), made := made), synced := true), e)
  {
    if e.nameType == BY_COUNT {
      NumberingGrows(w1.s, e, name);
    }
  }

  /** The status of a file just opened under `name` by OS call number `life`. */
  function Blank(s: Slot, e: Entry, i: nat, name: string, handle: Option<nat>, life: nat): Slot {
    s.(name := name, handle := handle, data := [], pos := 0, life := life, packets := [], tests := 0,
       header := Header(i, e.nameType, NameBytes(name)))
  }

  lemma BlankIs(i: nat, s: Slot, e: Entry, name: string, handle: Option<nat>, life: nat)
    requires History(i, s) && ClosedShape(s) && handle.Some? && 0 < |name| < PATH_SIZE && SEPARATOR in name
    ensures var s' := Blank(s, e, i, name, handle, life);
            JustOpened(i, s') && History(i, s') && Stored(s') == Stored(s)
  {
    assert s.packets == [];
  }

  /** A new file takes the current count as its number; at the rollover the numbering starts afresh. */
  lemma NumberingGrows(s: Slot, e: Entry, name: string)
    requires Numbered(s.count, s.made) && EntryFits(e) && CStr(e.parts.path) != []
    requires name == ExactName(e.parts, Digits(s.count, SEQUENCE_DIGITS))
    ensures var made := s.made + [Made(e.parts, s.count, name)];
            Numbered(NextCount(s.count, e), made)
  {
  }

  // ----- The whole of DS_FileSetupWrite

  /** Exactly the outcomes under which the packet gets stored. */
  predicate Succeeds(s: Slot, e: Entry, p: Bytes, io: SetupIo)
  {
    && io.write.written == |p|
    && ((s.handle.Some? && s.size + |p| <= e.maxSize)
        || (Nameable(e, s.count, io.create.clock) && io.create.handle.Some? && HeadersWritten(io.create)))
  }

  ghost predicate Bounded(io: SetupIo, p: Bytes) {
    && io.write.written <= |p| && io.create.fsWritten <= FS_HEADER_SIZE && io.create.dsWritten <= DS_HEADER_SIZE
  }

  /** The packet is stored in an open file. */
  ghost predicate Appended(s: Slot, s': Slot, p: Bytes) {
    && s'.handle.Some? && s'.state == s.state
    && s'.packets != [] && s'.packets[|s'.packets| - 1] == p
    && Stored(s') == Stored(s) + [p]
  }

  /** The destination is closed and disabled, with what was stored before. */
  ghost predicate Disabled(s: Slot, s': Slot) {
    s'.handle.None? && s'.state == DISABLED && Stored(s') == Stored(s)
  }

  lemma NewFileIs(i: nat, w: World, e: Entry, p: Bytes, io: SetupIo)
    requires EntryFits(e) && History(i, w.s) && ClosedShape(w.s) && !w.os.fault
    requires Promised(io, w.os) && Bounded(io, p) && Framed(p)
    ensures var w' := NewFile(w, e, i, p, io);
            && SlotInv(i, w'.s) && HandleMoves(w.os, w'.os, None, w'.s.handle)
            && (w.synced ==> w'.synced) && (w'.s.count != w.s.count ==> w'.synced)
            && (w'.s.handle.Some? ==> |w'.s.packets| == 1 && w'.s.tests == 0)
            && if Succeeds(w.s, e, p, io) then Appended(w.s, w'.s, p) else Disabled(w.s, w'.s)
  {
    CreateDestIs(i, w, e, io.create);
    var w1 := CreateDest(w, e, i, io.create);
    if w1.s.handle.Some? {
      FirstPacket(i, w, w1, e, p, io.write);
    }
  }

  lemma FirstPacket(i: nat, w: World, w1: World, e: Entry, p: Bytes, io: WriteIo)
    requires ClosedShape(w.s) && Created(i, w, w1, e) && Framed(p) && io.written <= |p|
    ensures var w' := WriteData(w1, e, p, io);
            && SlotInv(i, w'.s) && HandleMoves(w.os, w'.os, None, w'.s.handle)
            && w'.synced == w1.synced && w'.s.count == w1.s.count
            && if io.written == |p| then Appended(w.s, w'.s, p) && |w'.s.packets| == 1 && w'.s.tests == 0
               else Disabled(w.s, w'.s)
  {
    FrameIsShort(p);
    WriteDataIs(i, w1, e, p, io);
    AgeStep(0);
    assert Stored(w1.s) == Stored(w.s);
  }

  lemma FrameIsShort(p: Bytes)
    requires Framed(p)
    ensures |p| <= 65542
  {
  }

  /** For every combination of naming and I/O outcomes the packet is appended to an open file, or the destination
      ends closed and disabled; which of the two is decided by `Succeeds`. */
  lemma SetupWriteIs(i: nat, w: World, e: Entry, p: Bytes, io: SetupIo)
    requires EntryFits(e) && SlotInv(i, w.s) && Holds(w.os, w.s.handle)
    requires Promised(io, w.os) && Bounded(io, p) && Framed(p)
    ensures var w' := SetupWrite(w, e, i, p, io);
            && SlotInv(i, w'.s) && HandleMoves(w.os, w'.os, w.s.handle, w'.s.handle)
            && (w.synced ==> w'.synced) && (w'.s.count != w.s.count ==> w'.synced)
            && if Succeeds(w.s, e, p, io) then Appended(w.s, w'.s, p) else Disabled(w.s, w'.s)
  {
    if w.s.handle.None? {
      NewFileIs(i, w, e, p, io);
    } else if w.s.size + |p| > e.maxSize {
      RegularClose(i, w, e, io.update, io.close);
      NewFileIs(i, CloseDest(UpdateHeader(w, io.update), e, io.close), e, p, io);
    } else {
      WriteDataIs(i, w, e, p, io.write);
    }
  }

  /** A file holds a single packet or is no larger than the size limit. */
  predicate WithinSize(s: Slot, maxSize: nat) {
    s.handle.Some? ==> |s.packets| == 1 || |s.data| <= maxSize
  }

  /** A file has seen fewer age tests than it takes to reach the age limit. */
  predicate WithinAge(s: Slot, maxAge: nat) {
    s.handle.Some? ==> s.tests < (maxAge + 3) / 4
  }

  predicate WithinLimits(s: Slot, maxSize: nat, maxAge: nat) {
    WithinSize(s, maxSize) && WithinAge(s, maxAge)
  }

  /** Every packet but the first of a file leaves the file within the size limit in force at that write, whatever the
      limit was before and however large the file had grown. */
  lemma SetupWriteWithinSize(i: nat, w: World, e: Entry, p: Bytes, io: SetupIo)
    requires EntryFits(e) && SlotInv(i, w.s) && Holds(w.os, w.s.handle)
    requires Promised(io, w.os) && Bounded(io, p) && Framed(p)
    ensures WithinSize(SetupWrite(w, e, i, p, io).s, e.maxSize)
  {
    if w.s.handle.None? {
      NewFileIs(i, w, e, p, io);
    } else if w.s.size + |p| > e.maxSize {
      RegularClose(i, w, e, io.update, io.close);
      NewFileIs(i, CloseDest(UpdateHeader(w, io.update), e, io.close), e, p, io);
    } else {
      WriteDataIs(i, w, e, p, io.write);
    }
  }

  /** A write makes no file older, and a new file has seen no age test. */
  lemma SetupWriteTests(i: nat, w: World, e: Entry, p: Bytes, io: SetupIo)
    requires EntryFits(e) && SlotInv(i, w.s) && Holds(w.os, w.s.handle)
    requires Promised(io, w.os) && Bounded(io, p) && Framed(p)
    ensures var s' := SetupWrite(w, e, i, p, io).s;
            s'.handle.Some? ==> s'.tests == 0 || (w.s.handle.Some? && s'.tests == w.s.tests)
  {
    if w.s.handle.None? {
      NewFileIs(i, w, e, p, io);
    } else if w.s.size + |p| > e.maxSize {
      RegularClose(i, w, e, io.update, io.close);
      NewFileIs(i, CloseDest(UpdateHeader(w, io.update), e, io.close), e, p, io);
    } else {
      WriteDataIs(i, w, e, p, io.write);
    }
  }

  // ----- Age

  /** One age test later: the file closed, or still open and below its limit. */
  ghost predicate Aged(i: nat, w: World, w': World, e: Entry) {
    if w.s.handle.None? then w' == w
    else if Older(w.s).age >= e.maxAge then ClosedRegularly(i, w, w')
    else SlotInv(i, w'.s) && w' == w.(s := Older(w.s))
  }

  lemma AgeTestIs(i: nat, w: World, e: Entry, update: UpdateIo, close: CloseIo)
    requires SlotInv(i, w.s) && Holds(w.os, w.s.handle) && |update.time| == TIME_SIZE
    ensures Aged(i, w, AgeTest(w, e, update, close), e)
  {
    if w.s.handle.Some? {
      OlderIsOpen(i, w.s);
      if Older(w.s).age >= e.maxAge {
        RegularClose(i, w.(s := Older(w.s)), e, update, close);
      }
    }
  }

  lemma OlderIsOpen(i: nat, s: Slot)
    requires SlotInv(i, s) && s.handle.Some?
    ensures SlotInv(i, Older(s)) && Stored(Older(s)) == Stored(s)
  {
    AgeStep(s.tests);
  }

  lemma CloseIfOpenIs(i: nat, w: World, e: Entry, update: UpdateIo, close: CloseIo)
    requires SlotInv(i, w.s) && Holds(w.os, w.s.handle) && |update.time| == TIME_SIZE
    ensures if w.s.handle.None? then CloseIfOpen(w, e, update, close) == w
            else ClosedRegularly(i, w, CloseIfOpen(w, e, update, close))
  {
    if w.s.handle.Some? {
      RegularClose(i, w, e, update, close);
    }
  }

  /** The age test number `c` of a file closes it under the limit `limit`. */
  predicate ClosesAt(limit: nat, c: nat) {
    AgeAfter(c) >= limit
  }

  /** Under a fixed limit a file is closed by age, and then at the latest by test ceil(limit / 4), if and only if the
      limit is at most 2^32 - 4; above that the 32-bit age wraps to zero before it reaches the limit. */
  lemma AgeLimitWorksIff(limit: nat)
    requires limit < U32
    ensures (exists c :: c >= 1 && ClosesAt(limit, c)) <==> limit <= U32 - 4
    ensures limit <= U32 - 4 ==> ClosesAt(limit, (limit + 3) / 4)
    ensures forall c | 1 <= c < (limit + 3) / 4 :: !ClosesAt(limit, c)
  {
    if limit <= U32 - 4 {
      assert ClosesAt(limit, (limit + 3) / 4);
      assert ClosesAt(limit, if limit == 0 then 1 else (limit + 3) / 4);
    } else {
      forall c | c >= 1 ensures !ClosesAt(limit, c) {
        assert AgeAfter(c) % 4 == 0;
      }
    }
  }

  /** A file that is still open after an age test has not yet seen ceil(limit / 4) of them. */
  lemma AgeTestWithinLimits(i: nat, w: World, e: Entry, update: UpdateIo, close: CloseIo)
    requires SlotInv(i, w.s) && Holds(w.os, w.s.handle) && |update.time| == TIME_SIZE
    requires WithinLimits(w.s, e.maxSize, e.maxAge) && e.maxAge <= U32 - 4
    ensures WithinLimits(AgeTest(w, e, update, close).s, e.maxSize, e.maxAge)
  {
    AgeTestIs(i, w, e, update, close);
    AgeLimitWorksIff(e.maxAge);
    if w.s.handle.Some? {
      OlderIsOpen(i, w.s);
    }
  }

  // ----- Names

  /** Files with different numbers, built from the same name parts, have different names. */
  lemma NamesNotReused(i: nat, s: Slot, j: nat, k: nat)
    requires SlotInv(i, s) && 0 <= j < k < |s.made| && s.made[j].number != s.made[k].number
        && s.made[j].parts == s.made[k].parts
    ensures s.made[j].name != s.made[k].name
  {
    CountsGiveDistinctNames(s.made[j].parts, s.made[j].number, s.made[k].number);
  }

  /** The number of every such file can be read off its name's eight digits. */
  lemma NumberReadsBack(i: nat, s: Slot, k: nat)
    requires SlotInv(i, s) && k < |s.made|
    ensures NamedByNumber(s.made[k])
    ensures var m := s.made[k];
            var at := |Directory(CStr(m.parts.path))| + |CStr(m.parts.base)|;
            at + SEQUENCE_DIGITS <= |m.name| && Decode(m.name[at..at + SEQUENCE_DIGITS]) == m.number
  {
    hide Digits, Decode, CStr;
    var m := s.made[k];
    assert NamedByNumber(m);
    var front := Directory(CStr(m.parts.path)) + CStr(m.parts.base);
    assert m.name[|front|..|front| + SEQUENCE_DIGITS] == Digits(m.number, SEQUENCE_DIGITS);
    EightDigitsDecode(m.number);
  }
}
