/** One destination file over its whole life, as ds_file.c drives it: create, header, append, rotate,
    write error, close, move. The outcome of every OS call is an argument, so that statements about
    these functions hold for every combination of successes and failures. */
module DestFile {
  import opened FileName
  import opened FileFormat
  import opened FilterAlgorithm
  import opened FileSystem

  const U32: nat := 0x1_0000_0000
  const DISABLED: nat := 0
  const ENABLED: nat := 1
  const SECS_PER_HK_CYCLE: nat := 4

  type Word32 = n: nat | n < U32

  /** An entry of the destination file table. */
  datatype Entry = Entry(movename: PathBuffer, parts: NameParts, nameType: nat, enableState: nat,
                         maxSize: Word32, maxAge: Word32, seqCount: nat)

  /** A file that DS has closed, with the packets that were written to it in full; `life` is the number of
      the OS call that created it. */
  datatype DiskFile = DiskFile(name: string, data: Bytes, packets: seq<Bytes>, header: Header, life: nat)

  /** A file named by count whose headers were written. */
  datatype Made = Made(parts: NameParts, number: nat, name: string)

  /** The status of one destination (first line), the open file behind its handle (second line) and its history:
      the packets in the open file and its header, the files closed so far, the files numbered so far, and the
      age tests of the open file. */
  datatype Slot = Slot(
    handle: Option<nat>, age: nat, size: nat, growth: nat, rate: nat, count: nat, state: nat, name: string,
    data: Bytes, pos: nat, life: nat,
    packets: seq<Bytes>, header: Header, log: seq<DiskFile>, made: seq<Made>, tests: nat)

  /** The OS's open handles; whether DS ever used or closed one that was not open, or moved a file without a name;
      and the calls that changed the file system, which `FileSystem.Replay` executes. */
  datatype Os = Os(open: set<nat>, fault: bool, ops: seq<Op>)

  /** `synced` records whether the step ended with a call of `DS_TableUpdateCDS`. */
  datatype World = World(s: Slot, os: Os, synced: bool)

  // ----- OS outcomes

  datatype CloseIo = CloseIo(moved: bool)
  datatype UpdateIo = UpdateIo(sought: bool, time: Bytes, written: nat)
  datatype CreateIo = CreateIo(handle: Option<nat>, clock: ClockText, fsHeader: Bytes,
                               fsWritten: nat, dsWritten: nat, close: CloseIo)
  datatype WriteIo = WriteIo(written: nat, close: CloseIo)
  datatype SetupIo = SetupIo(update: UpdateIo, close: CloseIo, create: CreateIo, write: WriteIo)

  /** What the OS and cFE promise: a new handle is not in use, header and time have their sizes. */
  ghost predicate Promised(io: SetupIo, os: Os) {
    && (io.create.handle.Some? ==> io.create.handle.value !in os.open)
    && |io.create.fsHeader| == FS_HEADER_SIZE && io.create.fsHeader[..4] == MAGIC
    && |io.update.time| == TIME_SIZE
  }

  // ----- The OS calls

  function Use(os: Os, h: Option<nat>): Os {
    if h.Some? && h.value in os.open then os else os.(fault := true)
  }

  function Release(os: Os, h: Option<nat>): Os {
    if h.Some? && h.value in os.open then os.(open := os.open - {h.value}) else os.(fault := true)
  }

  function Prefix(b: Bytes, n: nat): Bytes {
    if n <= |b| then b[..n] else b
  }

  /** `OS_write`: the first `written` bytes of `b` reach the file. */
  function WriteBytes(s: Slot, b: Bytes, written: nat): Slot {
    var padded := if s.pos <= |s.data| then s.data else s.data + seq(s.pos - |s.data|, i => 0);
    s.(data := Overlay(padded, s.pos, Prefix(b, written)), pos := s.pos + |Prefix(b, written)|)
  }

  /** The same call as the OS sees it. */
  function UseToWrite(os: Os, s: Slot, b: Bytes, written: nat): Os {
    if s.handle.None? then Use(os, s.handle)
    else Use(os, s.handle).(ops := os.ops + [Write(s.handle.value, s.pos, Prefix(b, written))])
  }

  // ----- ds_file.c

  function NameBytes(name: string): Bytes {
    seq(|name|, i requires 0 <= i < |name| => name[i] as int % 256)
  }

  function SequenceText(nameType: nat, count: nat, clock: ClockText): (s: string)
    ensures NUL !in s
  {
    if nameType == BY_COUNT then Digits(count, SEQUENCE_DIGITS)
    else if nameType == BY_TIME then TimeText(clock)
    else ""
  }

  function Grow(s: Slot, n: nat): Slot {
    s.(size := (s.size + n) % U32, growth := (s.growth + n) % U32)
  }

  /** `DS_FileCloseDest`. */
  function CloseDest(w: World, e: Entry, io: CloseIo): World {
    var s := w.s;
    var target := MoveTarget(e.movename, s.name);
    var moved := target.Some? && io.moved;
    var file := DiskFile(if moved then target.value else s.name, s.data, s.packets, s.header, s.life);
    var os := Release(w.os, s.handle).(
      ops := if moved then w.os.ops + [Move(s.name, target.value)] else w.os.ops);
    w.(s := s.(handle := None, age := 0, size := 0, name := "", data := [], pos := 0,
               packets := [], log := s.log + [file], tests := 0),
       os := if CStr(e.movename) != [] && SEPARATOR !in s.name then os.(fault := true) else os)
  }

  /** `DS_FileWriteError`. */
  function WriteError(w: World, e: Entry, io: CloseIo): World {
    var closed := CloseDest(w, e, io);
    closed.(s := closed.s.(state := DISABLED))
  }

  /** `DS_FileWriteData`. */
  function WriteData(w: World, e: Entry, p: Bytes, io: WriteIo): World {
    var s := WriteBytes(w.s, p, io.written);
    var used := w.(s := s, os := UseToWrite(w.os, w.s, p, io.written));
    if io.written == |p| then used.(s := Grow(s, |p|).(packets := s.packets + [p]))
    else WriteError(used, e, io.close)
  }

  /** `DS_FileWriteHeader`. */
  function WriteHeader(w: World, e: Entry, i: nat, io: CreateIo): World
  {
    var s1 := WriteBytes(w.s, io.fsHeader, io.fsWritten);
    var w1 := w.(s := s1, os := UseToWrite(w.os, w.s, io.fsHeader, io.fsWritten));
    if io.fsWritten != FS_HEADER_SIZE then WriteError(w1, e, io.close)
    else
      var header := DsHeader(i, e.nameType, NameBytes(w.s.name));
      var s2 := WriteBytes(Grow(s1, FS_HEADER_SIZE), header, io.dsWritten);
      var w2 := w1.(s := s2, os := UseToWrite(w1.os, s1, header, io.dsWritten));
      if io.dsWritten != DS_HEADER_SIZE then WriteError(w2, e, io.close)
      else w2.(s := Grow(s2, DS_HEADER_SIZE))
  }

  /** The count after a file was numbered. */
  function NextCount(count: nat, e: Entry): nat {
    if count + 1 > MAX_SEQUENCE_COUNT then e.seqCount else count + 1
  }

  /** `OS_OpenCreate` returned the handle `h`. */
  function Opened(os: Os, h: nat, name: string): Os {
    os.(open := os.open + {h}, ops := os.ops + [Create(h, name)])
  }

  /** `DS_FileCreateDest`; where no name can be built the old one, if any, stays. */
  function CreateDest(w: World, e: Entry, i: nat, io: CreateIo): World
  {
    var s := w.s;
    var built := NameFor(e.parts, SequenceText(e.nameType, s.count, io.clock));
    var named := if built.Some? then s.(name := built.value) else s.(state := DISABLED);
    if named.name == "" then w.(s := named)
    else if io.handle.None? then w.(s := named.(name := "", state := DISABLED))
    else
      var empty := named.(handle := io.handle, data := [], pos := 0, life := |w.os.ops|, packets := [], tests := 0,
                          header := Header(i, e.nameType, NameBytes(named.name)));
      var w1 := WriteHeader(w.(s := empty, os := Opened(w.os, io.handle.value, named.name)), e, i, io);
      if w1.s.handle.None? || e.nameType != BY_COUNT then w1
      else
        var made := s.made + [Made(e.parts, s.count, named.name)];
        w1.(s := w1.s.(count := NextCount(s.count, e), made := made), synced := true)
  }

  /** `DS_FileUpdateHeader`. */
  function UpdateHeader(w: World, io: UpdateIo): World {
    if !io.sought then w.(os := Use(w.os, w.s.handle))
    else
      var s := w.s.(pos := FS_HEADER_SIZE);
      w.(s := WriteBytes(s, io.time, io.written), os := UseToWrite(w.os, s, io.time, io.written))
  }

  function NewFile(w: World, e: Entry, i: nat, p: Bytes, io: SetupIo): World
  {
    var w1 := CreateDest(w, e, i, io.create);
    if w1.s.handle.Some? then WriteData(w1, e, p, io.write) else w1
  }

  /** `DS_FileSetupWrite`. The sum is taken in `size_t`, here wider than 32 bits. */
  function SetupWrite(w: World, e: Entry, i: nat, p: Bytes, io: SetupIo): World
  {
    if w.s.handle.None? then NewFile(w, e, i, p, io)
    else if w.s.size + |p| > e.maxSize then NewFile(CloseDest(UpdateHeader(w, io.update), e, io.close), e, i, p, io)
    else WriteData(w, e, p, io.write)
  }

  /** Closing on command: the header is updated first. */
  function CloseIfOpen(w: World, e: Entry, update: UpdateIo, close: CloseIo): World {
    if w.s.handle.None? then w else CloseDest(UpdateHeader(w, update), e, close)
  }

  /** Four seconds later, in 32 bits. */
  function Older(s: Slot): Slot {
    s.(age := (s.age + SECS_PER_HK_CYCLE) % U32, tests := s.tests + 1)
  }

  /** One destination's share of `DS_FileTestAge`. */
  function AgeTest(w: World, e: Entry, update: UpdateIo, close: CloseIo): World {
    if w.s.handle.None? then w
    else
      var w1 := w.(s := Older(w.s));
      if w1.s.age >= e.maxAge then CloseDest(UpdateHeader(w1, update), e, close) else w1
  }
}
