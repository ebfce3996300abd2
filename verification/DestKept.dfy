/** Which names a destination touches in the file system, when its files are named by count. */
module DestKept {
  import opened FileName
  import opened FileFormat
  import opened FilterAlgorithm
  import opened FileSystem
  import opened DestFile
  import opened DestFileProofs
  import opened DestDisk

  /** The name under which file number `m` is created, and the one it is moved to when it is closed. */
  predicate HasName(e: Entry, m: nat, name: string) {
    && CStr(e.parts.path) != []
    && var created := ExactName(e.parts, Digits(m, SEQUENCE_DIGITS));
       name == created || MoveTarget(e.movename, created) == Some(name)
  }

  predicate CountNamed(e: Entry) {
    e.nameType == BY_COUNT || CStr(e.parts.path) == []
  }

  /** The open file is file number `m`, and stands under its name. */
  ghost predicate OpenAs(e: Entry, m: nat, s: Slot, ops: seq<Op>) {
    && s.handle.Some? && CStr(e.parts.path) != []
    && s.name == ExactName(e.parts, Digits(m, SEQUENCE_DIGITS))
    && Stands(Replay(ops), s.name, s.life)
  }

  ghost predicate ClosedAs(e: Entry, m: nat, f: DiskFile, ops: seq<Op>) {
    HasName(e, m, f.name) && Stands(Replay(ops), f.name, f.life)
  }

  /** No file under a name that number `m` does not have is touched. */
  ghost predicate KeepsBut(e: Entry, m: nat, ops: seq<Op>, ops': seq<Op>) {
    forall name: string, life: nat | Stands(Replay(ops), name, life) && !HasName(e, m, name) ::
      Stands(Replay(ops'), name, life)
  }

  lemma KeepsButOn(e: Entry, m: nat, ops: seq<Op>, ops1: seq<Op>, ops2: seq<Op>)
    requires KeepsBut(e, m, ops, ops1) && KeepsBut(e, m, ops1, ops2)
    ensures KeepsBut(e, m, ops, ops2)
  {
  }

  // ----- One call

  lemma OwnWriteKeeps(ops: seq<Op>, h: nat, at: nat, b: Bytes, own: string, life: nat)
    requires Holder(ops, h, life) && Stands(Replay(ops), own, life)
    ensures forall name: string, l: nat | Stands(Replay(ops), name, l) ::
              Stands(Replay(ops + [Write(h, at, b)]), name, l)
  {
    hide Patch;
    assert (ops + [Write(h, at, b)])[..|ops|] == ops;
    ReplayIsProper(ops);
  }

  lemma CreateKeeps(ops: seq<Op>, h: nat, name: string)
    ensures forall n: string, life: nat | Stands(Replay(ops), n, life) && n != name ::
              Stands(Replay(ops + [Create(h, name)]), n, life)
  {
    assert (ops + [Create(h, name)])[..|ops|] == ops;
    ReplayIsProper(ops);
  }

  lemma MoveKeeps(ops: seq<Op>, from: string, to: string)
    ensures forall n: string, life: nat | Stands(Replay(ops), n, life) && n != from && n != to ::
              Stands(Replay(ops + [Move(from, to)]), n, life)
    ensures forall life: nat | Stands(Replay(ops), from, life) :: Stands(Replay(ops + [Move(from, to)]), to, life)
  {
    assert (ops + [Move(from, to)])[..|ops|] == ops;
  }

  // ----- The steps of ds_file.c

  lemma WriteKept(e: Entry, m: nat, s: Slot, os: Os, b: Bytes, written: nat, s': Slot)
    requires OpenAs(e, m, s, os.ops) && Sound(s, os.ops)
    requires s'.handle == s.handle && s'.name == s.name && s'.life == s.life
    ensures OpenAs(e, m, s', UseToWrite(os, s, b, written).ops)
    ensures KeepsBut(e, m, os.ops, UseToWrite(os, s, b, written).ops)
  {
    hide Replay, Stands, HasName;
    OwnWriteKeeps(os.ops, s.handle.value, s.pos, Prefix(b, written), s.name, s.life);
  }

  lemma CloseKept(e: Entry, m: nat, w: World, io: CloseIo)
    requires OpenAs(e, m, w.s, w.os.ops)
    ensures var w' := CloseDest(w, e, io);
            && w'.s.log == w.s.log + [w'.s.log[|w.s.log|]]
            && w'.s.log[|w.s.log|].packets == w.s.packets
            && ClosedAs(e, m, w'.s.log[|w.s.log|], w'.os.ops)
            && KeepsBut(e, m, w.os.ops, w'.os.ops)
  {
    hide Replay, Stands, MoveTarget, ExactName;
    var target := MoveTarget(e.movename, w.s.name);
    if target.Some? {
      MoveKeeps(w.os.ops, w.s.name, target.value);
    }
  }

  /** A write, or what follows from its failure. */
  ghost predicate WroteOrClosed(e: Entry, m: nat, w: World, w': World, ok: bool) {
    && KeepsBut(e, m, w.os.ops, w'.os.ops)
    && if ok then OpenAs(e, m, w'.s, w'.os.ops) && w'.s.log == w.s.log
       else
         && w'.s.handle.None? && |w'.s.log| == |w.s.log| + 1 && w.s.log <= w'.s.log
         && w'.s.log[|w.s.log|].packets == w.s.packets && ClosedAs(e, m, w'.s.log[|w.s.log|], w'.os.ops)
  }

  lemma WriteOrFailKept(e: Entry, m: nat, w: World, b: Bytes, written: nat, w1: World, io: CloseIo, ok: bool)
    requires OpenAs(e, m, w.s, w.os.ops) && Sound(w.s, w.os.ops)
    requires SameFile(w.s, w1.s) && w1.s.name == w.s.name && (!ok ==> w1.s.packets == w.s.packets)
    requires w1.os == UseToWrite(w.os, w.s, b, written)
    ensures WroteOrClosed(e, m, w, if ok then w1 else WriteError(w1, e, io), ok)
    ensures OpenAs(e, m, w1.s, w1.os.ops)
  {
    hide OpenAs, ClosedAs, KeepsBut, CloseDest, Sound;
    WriteKept(e, m, w.s, w.os, b, written, w1.s);
    if !ok {
      CloseKept(e, m, w1, io);
      KeepsButOn(e, m, w.os.ops, w1.os.ops, WriteError(w1, e, io).os.ops);
      ClosedIsClosed(w1, e, io);
    }
  }

  lemma ClosedIsClosed(w: World, e: Entry, io: CloseIo)
    ensures var w', c := WriteError(w, e, io), CloseDest(w, e, io);
            w'.s.handle.None? && w'.s.log == c.s.log && w'.os == c.os && w'.s.count == w.s.count
  {
  }

  lemma WriteDataKept(e: Entry, m: nat, w: World, p: Bytes, io: WriteIo)
    requires OpenAs(e, m, w.s, w.os.ops) && Sound(w.s, w.os.ops)
    ensures WroteOrClosed(e, m, w, WriteData(w, e, p, io), io.written == |p|)
  {
    hide OpenAs, WroteOrClosed, Sound, WriteError, Overlay, Prefix;
    var s := WriteBytes(w.s, p, io.written);
    var used := w.(s := s, os := UseToWrite(w.os, w.s, p, io.written));
    if io.written == |p| {
      WriteOrFailKept(e, m, w, p, io.written, used.(s := Grow(s, |p|).(packets := s.packets + [p])), io.close, true);
    } else {
      WriteOrFailKept(e, m, w, p, io.written, used, io.close, false);
    }
  }

  lemma WriteHeaderKept(e: Entry, m: nat, i: nat, w: World, io: CreateIo)
    requires OpenAs(e, m, w.s, w.os.ops) && Sound(w.s, w.os.ops) && Holds(w.os, w.s.handle) && w.s.handle.Some?
    requires w.s.pos == |w.s.data| && SEPARATOR in w.s.name
    ensures WroteOrClosed(e, m, w, WriteHeader(w, e, i, io), HeadersWritten(io))
  {
    hide OpenAs, ClosedAs, KeepsBut, Sound, WriteError, Overlay, Prefix, DsHeader, NameBytes;
    WriteAtEnd(w.s, io.fsHeader, io.fsWritten);
    var s1 := WriteBytes(w.s, io.fsHeader, io.fsWritten);
    var w1 := w.(s := s1, os := UseToWrite(w.os, w.s, io.fsHeader, io.fsWritten));
    if io.fsWritten != FS_HEADER_SIZE {
      WriteOrFailKept(e, m, w, io.fsHeader, io.fsWritten, w1, io.close, false);
    } else {
      var g1 := w1.(s := Grow(s1, FS_HEADER_SIZE));
      WriteOrFailKept(e, m, w, io.fsHeader, io.fsWritten, g1, io.close, true);
      WriteOrFail(w, io.fsHeader, io.fsWritten, g1, e, io.close, true);
      var header := DsHeader(i, e.nameType, NameBytes(w.s.name));
      var s2 := WriteBytes(g1.s, header, io.dsWritten);
      var w2 := g1.(s := s2, os := UseToWrite(g1.os, g1.s, header, io.dsWritten));
      if io.dsWritten == DS_HEADER_SIZE {
        WriteOrFailKept(e, m, g1, header, io.dsWritten, w2.(s := Grow(s2, DS_HEADER_SIZE)), io.close, true);
      } else {
        WriteOrFailKept(e, m, g1, header, io.dsWritten, w2, io.close, false);
      }
      KeepsButOn(e, m, w.os.ops, g1.os.ops, WriteHeader(w, e, i, io).os.ops);
    }
  }

  /** No file under a name of a number from `low` on is touched. */
  ghost predicate KeepsBelow(e: Entry, low: nat, ops: seq<Op>, ops': seq<Op>) {
    forall name: string, life: nat | Stands(Replay(ops), name, life) && Clear(e, low, name) ::
      Stands(Replay(ops'), name, life)
  }

  ghost predicate Clear(e: Entry, low: nat, name: string) {
    forall m | low <= m <= MAX_SEQUENCE_COUNT :: !HasName(e, m, name)
  }

  lemma KeepsButBelow(e: Entry, m: nat, low: nat, ops: seq<Op>, ops': seq<Op>)
    requires KeepsBut(e, m, ops, ops') && low <= m <= MAX_SEQUENCE_COUNT
    ensures KeepsBelow(e, low, ops, ops')
  {
    hide Replay, Stands, HasName;
  }

  lemma KeepsBelowOn(e: Entry, low: nat, low1: nat, ops: seq<Op>, ops1: seq<Op>, ops2: seq<Op>)
    requires KeepsBelow(e, low, ops, ops1) && KeepsBelow(e, low1, ops1, ops2) && low <= low1
    ensures KeepsBelow(e, low, ops, ops2)
  {
    hide Replay, Stands, HasName;
  }

  /** The first number that a destination's next step can touch: that of its open file, or the next one to be given. */
  function First(s: Slot): int {
    if s.handle.Some? then s.count - 1 else s.count
  }

  /** Files of the destination that hold packets: the closed ones have lower numbers than the open one. */
  ghost predicate FilesKept(e: Entry, s: Slot, ops: seq<Op>) {
    && (s.handle.Some? ==> s.count > 0 && OpenAs(e, s.count - 1, s, ops))
    && forall k | 0 <= k < |s.log| && s.log[k].packets != [] :: FileKept(e, First(s), s.log[k], ops)
  }

  ghost predicate FileKept(e: Entry, bound: int, f: DiskFile, ops: seq<Op>) {
    exists m: nat :: m < bound && ClosedAs(e, m, f, ops)
  }

  /** A step of the destination that touches no file with packets but to append, close or move it. */
  ghost predicate KeptStep(e: Entry, w: World, w': World) {
    && 0 <= First(w.s) <= First(w'.s) && w.s.log <= w'.s.log
    && KeepsBelow(e, First(w.s), w.os.ops, w'.os.ops)
    && (w'.s.handle.Some? ==> w'.s.count > 0 && OpenAs(e, w'.s.count - 1, w'.s, w'.os.ops))
    && forall k | |w.s.log| <= k < |w'.s.log| && w'.s.log[k].packets != [] ::
         NewFileKept(e, First(w.s), First(w'.s), w'.s.log[k], w'.os.ops)
  }

  ghost predicate NewFileKept(e: Entry, low: int, bound: int, f: DiskFile, ops: seq<Op>) {
    exists m: nat :: low <= m < bound && ClosedAs(e, m, f, ops)
  }

  /** The step gave out no number beyond the greatest. */
  predicate NoRollover(s: Slot, s': Slot) {
    s.count + |s'.made| - |s.made| <= MAX_SEQUENCE_COUNT
  }

  /** Creating a file touches the names of one number only. */
  ghost predicate CreatedKept(e: Entry, w: World, w': World) {
    && KeepsBut(e, w.s.count, w.os.ops, w'.os.ops) && w.s.log <= w'.s.log
    && (forall k | |w.s.log| <= k < |w'.s.log| :: w'.s.log[k].packets == [])
    && if w'.s.handle.Some? then OpenAs(e, w.s.count, w'.s, w'.os.ops) && w'.s.count == w.s.count + 1
       else w'.s.count == w.s.count
  }

  lemma SameOpsKept(e: Entry, m: nat, ops: seq<Op>)
    ensures KeepsBut(e, m, ops, ops)
  {
  }

  lemma CreateDestKept(i: nat, w: World, e: Entry, io: CreateIo)
    requires CreateReady(i, w, e, io) && Sound(w.s, w.os.ops) && CountNamed(e)
    requires NoRollover(w.s, CreateDest(w, e, i, io).s)
    ensures CreatedKept(e, w, CreateDest(w, e, i, io))
  {
    hide KeepsBut, OpenAs, ClosedAs, Sound, WriteHeader, NameFor, SequenceText, NameBytes, History;
    var text := SequenceText(e.nameType, w.s.count, io.clock);
    var built := NameFor(e.parts, text);
    CreateDestIs(i, w, e, io);
    if built.Some? && io.handle.Some? {
      CountName(e, w.s.count, io.clock);
      NameForIsUsable(e.parts, text);
      var s0 := Blank(w.s, e, i, built.value, io.handle, |w.os.ops|);
      var w0 := World(s0, Opened(w.os, io.handle.value, built.value), w.synced);
      OpenedKept(e, i, w, built.value, io.handle);
      WriteHeaderKept(e, w.s.count, i, w0, io);
      var w1 := WriteHeader(w0, e, i, io);
      WriteHeaderLog(w0, e, i, io);
      HeaderOutcome(e, w.s.count, w0, w1, HeadersWritten(io));
      KeepsButOn(e, w.s.count, w.os.ops, w0.os.ops, w1.os.ops);
      var w' := CreateDest(w, e, i, io);
      assert w'.os == w1.os && w'.s.log == w1.s.log && w'.s.handle == w1.s.handle;
      if w1.s.handle.Some? {
        assert w'.s.name == w1.s.name && w'.s.life == w1.s.life && w'.s.count == w.s.count + 1;
        OpenAsSame(e, w.s.count, w1.s, w'.s, w1.os.ops);
      }
    } else {
      SameOpsKept(e, w.s.count, w.os.ops);
    }
  }

  lemma OpenAsSame(e: Entry, m: nat, s: Slot, s': Slot, ops: seq<Op>)
    requires OpenAs(e, m, s, ops) && s'.handle == s.handle && s'.name == s.name && s'.life == s.life
    ensures OpenAs(e, m, s', ops)
  {
  }

  /** What is numbered after a creation is the file whose headers were written. */
  lemma WriteHeaderLog(w: World, e: Entry, i: nat, io: CreateIo)
    ensures WriteHeader(w, e, i, io).s.count == w.s.count && WriteHeader(w, e, i, io).s.made == w.s.made
  {
    hide Overlay, DsHeader, NameBytes, Prefix, MoveTarget;
  }

  lemma CountName(e: Entry, count: nat, clock: ClockText)
    requires CountNamed(e) && NameFor(e.parts, SequenceText(e.nameType, count, clock)).Some?
    ensures e.nameType == BY_COUNT && CStr(e.parts.path) != []
    ensures NameFor(e.parts, SequenceText(e.nameType, count, clock)).value ==
            ExactName(e.parts, Digits(count, SEQUENCE_DIGITS))
  {
  }

  lemma OpenedKept(e: Entry, i: nat, w: World, name: string, handle: Option<nat>)
    requires Sound(w.s, w.os.ops) && w.s.handle.None? && handle.Some? && handle.value !in w.os.open
    requires CStr(e.parts.path) != [] && name == ExactName(e.parts, Digits(w.s.count, SEQUENCE_DIGITS))
    ensures var s0, ops0 := Blank(w.s, e, i, name, handle, |w.os.ops|), Opened(w.os, handle.value, name).ops;
            && OpenAs(e, w.s.count, s0, ops0) && Sound(s0, ops0)
            && KeepsBut(e, w.s.count, w.os.ops, ops0)
  {
    hide Replay, Stands, Sound, Knows, Holder;
    CreateStep(w, e, i, name, handle);
    CreatedKnown(w.os.ops, handle.value, name);
    CreateKeeps(w.os.ops, handle.value, name);
  }

  lemma HeaderOutcome(e: Entry, m: nat, w: World, w': World, ok: bool)
    requires WroteOrClosed(e, m, w, w', ok) && w.s.packets == []
    ensures KeepsBut(e, m, w.os.ops, w'.os.ops) && w.s.log <= w'.s.log
    ensures forall k | |w.s.log| <= k < |w'.s.log| :: w'.s.log[k].packets == []
    ensures w'.s.handle.Some? <==> ok
    ensures ok ==> OpenAs(e, m, w'.s, w'.os.ops)
  {
    hide KeepsBut, ClosedAs, Stands, ExactName, Digits, CStr;
  }

  /** No name belongs to two numbers of the destination. */
  ghost predicate OwnNamesDiffer(e: Entry) {
    forall m: nat, n: nat, name: string | m < n <= MAX_SEQUENCE_COUNT :: !(HasName(e, m, name) && HasName(e, n, name))
  }

  lemma KeptStepOn(e: Entry, w: World, w1: World, w2: World)
    requires KeptStep(e, w, w1) && KeptStep(e, w1, w2) && OwnNamesDiffer(e)
    ensures KeptStep(e, w, w2)
  {
    hide HasName, Replay, Stands, OpenAs;
    KeepsBelowOn(e, First(w.s), First(w1.s), w.os.ops, w1.os.ops, w2.os.ops);
    forall k | |w.s.log| <= k < |w2.s.log| && w2.s.log[k].packets != []
      ensures NewFileKept(e, First(w.s), First(w2.s), w2.s.log[k], w2.os.ops)
    {
      var f := w2.s.log[k];
      if k < |w1.s.log| {
        assert w1.s.log[k] == f;
        var m: nat :| First(w.s) <= m < First(w1.s) && ClosedAs(e, m, f, w1.os.ops);
        assert Clear(e, First(w1.s), f.name);
        assert ClosedAs(e, m, f, w2.os.ops);
      } else {
        var m: nat :| First(w1.s) <= m < First(w2.s) && ClosedAs(e, m, f, w2.os.ops);
      }
    }
  }

  lemma NewFileStepKept(i: nat, w: World, e: Entry, p: Bytes, io: SetupIo)
    requires EntryFits(e) && History(i, w.s) && ClosedShape(w.s) && !w.os.fault && CountNamed(e)
    requires Promised(io, w.os) && Bounded(io, p) && Sound(w.s, w.os.ops)
    requires NoRollover(w.s, NewFile(w, e, i, p, io).s)
    ensures KeptStep(e, w, NewFile(w, e, i, p, io))
  {
    hide CreateDest, WriteData, KeepsBut, OpenAs, Sound, Image, AllFramed, WroteOrClosed, CreatedKept, HasName, Stands;
    var m, w1 := w.s.count, CreateDest(w, e, i, io.create);
    CreateDestIs(i, w, e, io.create);
    CreateDestStep(i, w, e, io.create);
    StepIsSound(w, w1);
    WriteDataCounts(w1, e, p, io.write);
    CreateDestKept(i, w, e, io.create);
    CreatedFacts(e, w, w1);
    if w1.s.handle.Some? {
      var w2 := WriteData(w1, e, p, io.write);
      WriteDataKept(e, m, w1, p, io.write);
      HeaderOutcome(e, m, w1, w2, io.write.written == |p|);
      KeepsButOn(e, m, w.os.ops, w1.os.ops, w2.os.ops);
      KeepsButBelow(e, m, m, w.os.ops, w2.os.ops);
    } else {
      KeepsButBelow(e, m, m, w.os.ops, w1.os.ops);
    }
  }

  lemma CreatedFacts(e: Entry, w: World, w': World)
    requires CreatedKept(e, w, w')
    ensures KeepsBut(e, w.s.count, w.os.ops, w'.os.ops) && w.s.log <= w'.s.log
    ensures forall k | |w.s.log| <= k < |w'.s.log| :: w'.s.log[k].packets == []
    ensures w'.s.handle.Some? ==> OpenAs(e, w.s.count, w'.s, w'.os.ops) && w'.s.count == w.s.count + 1
    ensures w'.s.handle.None? ==> w'.s.count == w.s.count
  {
  }

  lemma WriteDataCounts(w: World, e: Entry, p: Bytes, io: WriteIo)
    ensures WriteData(w, e, p, io).s.count == w.s.count && WriteData(w, e, p, io).s.made == w.s.made
  {
    hide Overlay, Prefix, MoveTarget;
  }

  /** Closing the open file: by command or age, for a rotation, or after a failed write. */
  lemma ClosingStepKept(e: Entry, w: World, w': World)
    requires w.s.handle.Some? && 0 < w.s.count <= MAX_SEQUENCE_COUNT + 1 && w'.s.count == w.s.count
    requires WroteOrClosed(e, w.s.count - 1, w, w', false)
    ensures KeptStep(e, w, w')
  {
    hide HasName, Replay, Stands;
    KeepsButBelow(e, w.s.count - 1, w.s.count - 1, w.os.ops, w'.os.ops);
    assert NewFileKept(e, First(w.s), First(w'.s), w'.s.log[|w.s.log|], w'.os.ops);
  }

  lemma CloseRegularlyKept(i: nat, w: World, e: Entry, update: UpdateIo, close: CloseIo)
    requires w.s.handle.Some? && 0 < w.s.count <= MAX_SEQUENCE_COUNT + 1
    requires OpenAs(e, w.s.count - 1, w.s, w.os.ops) && Sound(w.s, w.os.ops)
    ensures KeptStep(e, w, CloseDest(UpdateHeader(w, update), e, close))
  {
    hide OpenAs, ClosedAs, KeepsBut, CloseDest, Sound, Overlay, Prefix, KeptStep;
    var m, w1 := w.s.count - 1, UpdateHeader(w, update);
    SameOpsKept(e, m, w.os.ops);
    if update.sought {
      var s := w.s.(pos := FS_HEADER_SIZE);
      SoundAt(w.s, s, w.os.ops);
      OpenAsSame(e, m, w.s, s, w.os.ops);
      WriteKept(e, m, s, w.os, update.time, update.written, w1.s);
    } else {
      OpenAsSame(e, m, w.s, w1.s, w.os.ops);
    }
    CloseKept(e, m, w1, close);
    var w' := CloseDest(w1, e, close);
    KeepsButOn(e, m, w.os.ops, w1.os.ops, w'.os.ops);
    CloseCounts(w1, e, close);
    ClosingStepKept(e, w, w');
  }

  lemma CloseCounts(w: World, e: Entry, close: CloseIo)
    ensures CloseDest(w, e, close).s.count == w.s.count && CloseDest(w, e, close).s.handle.None?
    ensures w.s.log <= CloseDest(w, e, close).s.log && CloseDest(w, e, close).s.made == w.s.made
  {
  }

  lemma SetupWriteKept(i: nat, w: World, e: Entry, p: Bytes, io: SetupIo)
    requires EntryFits(e) && SlotInv(i, w.s) && Holds(w.os, w.s.handle) && CountNamed(e) && OwnNamesDiffer(e)
    requires Promised(io, w.os) && Bounded(io, p) && Sound(w.s, w.os.ops)
    requires w.s.handle.Some? ==> w.s.count > 0 && OpenAs(e, w.s.count - 1, w.s, w.os.ops)
    requires NoRollover(w.s, SetupWrite(w, e, i, p, io).s)
    ensures KeptStep(e, w, SetupWrite(w, e, i, p, io))
  {
    hide OpenAs, KeepsBut, Sound, Image, AllFramed, WroteOrClosed, HasName, Stands, NewFile, WriteData, CloseDest,
    UpdateHeader,
         KeptStep, OwnNamesDiffer;
    if w.s.handle.None? {
      NewFileStepKept(i, w, e, p, io);
    } else if w.s.size + |p| > e.maxSize {
      CloseRegularlyKept(i, w, e, io.update, io.close);
      CloseRegularlyStep(i, w, e, io.update, io.close);
      var w1 := CloseDest(UpdateHeader(w, io.update), e, io.close);
      StepIsSound(w, w1);
      NewFileStepKept(i, w1, e, p, io);
      KeptStepOn(e, w, w1, NewFile(w1, e, i, p, io));
    } else {
      WriteDataKept(e, w.s.count - 1, w, p, io.write);
      WriteDataCounts(w, e, p, io.write);
      if io.write.written == |p| {
        AppendKept(e, w, WriteData(w, e, p, io.write));
      } else {
        ClosingStepKept(e, w, WriteData(w, e, p, io.write));
      }
    }
  }

  lemma AppendKept(e: Entry, w: World, w': World)
    requires w.s.handle.Some? && 0 < w.s.count <= MAX_SEQUENCE_COUNT + 1 && w'.s.count == w.s.count
    requires WroteOrClosed(e, w.s.count - 1, w, w', true)
    ensures KeptStep(e, w, w')
  {
    hide HasName, Replay, Stands;
    KeepsButBelow(e, w.s.count - 1, w.s.count - 1, w.os.ops, w'.os.ops);
  }
}
