/** What the steps on one destination do to the file system. */
module DestDisk {
  import opened FileName
  import opened FileFormat
  import opened FilterAlgorithm
  import opened FileSystem
  import opened DestFile
  import opened DestFileProofs

  /** Call number `life` created a file, and wherever that file stands now, it holds `data`. */
  ghost predicate Knows(ops: seq<Op>, life: nat, data: Bytes) {
    life < |ops| && ops[life].Create? && Contains(Replay(ops), life, data)
  }

  /** The calls in between changed nothing that was known about the file. */
  ghost predicate Spares(ops: seq<Op>, ops': seq<Op>, life: nat) {
    forall data :: Knows(ops, life, data) ==> Knows(ops', life, data)
  }

  ghost predicate SameFd(ops: seq<Op>, ops': seq<Op>, h: nat) {
    var fds, fds' := Replay(ops).fds, Replay(ops').fds;
    h in fds ==> h in fds' && fds'[h] == fds[h]
  }

  /** The handle writes into the file that call number `life` created. */
  ghost predicate Holder(ops: seq<Op>, h: nat, life: nat) {
    h in Replay(ops).fds && Replay(ops).fds[h].life == life
  }

  ghost predicate LogKnown(ops: seq<Op>, log: seq<DiskFile>) {
    forall k | 0 <= k < |log| :: Knows(ops, log[k].life, log[k].data)
  }

  predicate InLog(log: seq<DiskFile>, life: nat) {
    exists k :: 0 <= k < |log| && log[k].life == life
  }

  /** A life of one of the destination's files, closed or open. */
  predicate IsLife(s: Slot, life: nat) {
    InLog(s.log, life) || (s.handle.Some? && s.life == life)
  }

  /** What DS remembers of its files is what the file system holds, as far as they are still there. */
  ghost predicate Sound(s: Slot, ops: seq<Op>) {
    && LogKnown(ops, s.log)
    && (s.handle.Some? ==> Holder(ops, s.handle.value, s.life) && Knows(ops, s.life, s.data) && !InLog(s.log, s.life))
  }

  /** A step of one destination: everything else is spared, what it remembers stays true, new files have new lives. */
  ghost predicate DiskStep(w: World, w': World) {
    && w.os.ops <= w'.os.ops && w.s.log <= w'.s.log
    && (forall life: nat | life < |w.os.ops| && !(w.s.handle.Some? && life == w.s.life) ::
          Spares(w.os.ops, w'.os.ops, life))
    && (forall h | h in w.os.open && Some(h) != w.s.handle :: SameFd(w.os.ops, w'.os.ops, h))
    && (forall life: nat | IsLife(w'.s, life) :: IsLife(w.s, life) || life >= |w.os.ops|)
    && Sound(w'.s, w'.os.ops)
  }

  lemma SparesOn(ops: seq<Op>, ops1: seq<Op>, ops2: seq<Op>, life: nat)
    requires Spares(ops, ops1, life) && Spares(ops1, ops2, life)
    ensures Spares(ops, ops2, life)
  {
  }

  lemma DiskStepOn(w: World, w1: World, w2: World)
    requires DiskStep(w, w1) && DiskStep(w1, w2) && HandleMoves(w.os, w1.os, w.s.handle, w1.s.handle)
    ensures DiskStep(w, w2)
  {
    hide Spares, SameFd, Sound, InLog;
    forall life: nat | life < |w.os.ops| && !(w.s.handle.Some? && life == w.s.life)
      ensures Spares(w.os.ops, w2.os.ops, life)
    {
      if w1.s.handle.Some? && life == w1.s.life {
        assert IsLife(w1.s, life);
        InLogGrows(w.s.log, w1.s.log, life);
        OpenNotInLog(w1.s, w1.os.ops);
        assert false;
      } else {
        SparesOn(w.os.ops, w1.os.ops, w2.os.ops, life);
      }
    }
    forall h | h in w.os.open && Some(h) != w.s.handle ensures SameFd(w.os.ops, w2.os.ops, h) {
      SameFdOn(w.os.ops, w1.os.ops, w2.os.ops, h);
    }
  }

  lemma SameFdOn(ops: seq<Op>, ops1: seq<Op>, ops2: seq<Op>, h: nat)
    requires SameFd(ops, ops1, h) && SameFd(ops1, ops2, h)
    ensures SameFd(ops, ops2, h)
  {
  }

  lemma InLogGrows(log: seq<DiskFile>, log': seq<DiskFile>, life: nat)
    requires log <= log' && InLog(log, life)
    ensures InLog(log', life)
  {
    var k :| 0 <= k < |log| && log[k].life == life;
    assert log'[k].life == life;
  }

  lemma OpenNotInLog(s: Slot, ops: seq<Op>)
    requires Sound(s, ops) && s.handle.Some?
    ensures !InLog(s.log, s.life)
  {
  }

  // ----- One call

  lemma CallSpares(ops: seq<Op>, op: Op, life: nat)
    requires life < |ops| && !OwnWrite(Replay(ops), op, life)
    ensures Spares(ops, ops + [op], life)
  {
    assert (ops + [op])[..|ops|] == ops;
    ReplayIsProper(ops);
    forall data | Knows(ops, life, data) ensures Knows(ops + [op], life, data) {
      OthersKeepContents(Replay(ops), op, |ops|, life, data);
    }
  }

  lemma CallKeepsFd(ops: seq<Op>, op: Op, h: nat)
    requires !(op.Create? && op.handle == h)
    ensures SameFd(ops, ops + [op], h)
  {
    assert (ops + [op])[..|ops|] == ops;
  }

  lemma OwnWriteKnown(ops: seq<Op>, h: nat, at: nat, b: Bytes, life: nat, data: Bytes)
    requires Knows(ops, life, data) && Holder(ops, h, life) && at <= |data|
    ensures Knows(ops + [Write(h, at, b)], life, Overlay(data, at, b))
  {
    var ops' := ops + [Write(h, at, b)];
    assert ops'[..|ops|] == ops;
    ReplayIsProper(ops);
    var disk, disk' := Replay(ops), Replay(ops');
    assert b == [] ==> Overlay(data, at, b) == data;
    forall name | Stands(disk', name, life) ensures disk'.nodes[disk'.dir[name]].data == Overlay(data, at, b) {
      assert Stands(disk, name, life);
    }
  }

  // ----- The steps of ds_file.c

  /** The handle and file are those of `s`, and `data` may have changed. */
  predicate SameFile(s: Slot, s': Slot) {
    s'.handle == s.handle && s'.life == s.life && s'.log == s.log
  }

  lemma SameFileLives(s: Slot, s': Slot, life: nat)
    requires SameFile(s, s')
    ensures IsLife(s, life) == IsLife(s', life)
  {
  }

  /** A step that issues no call of its own and leaves the file alone. */
  lemma QuietStep(w: World, w': World)
    requires SameFile(w.s, w'.s) && w'.s.data == w.s.data && w'.os.ops == w.os.ops && Sound(w.s, w.os.ops)
    ensures DiskStep(w, w')
  {
  }

  lemma LogKept(ops: seq<Op>, ops': seq<Op>, s: Slot)
    requires Sound(s, ops)
    requires forall life: nat | life < |ops| && !(s.handle.Some? && life == s.life) :: Spares(ops, ops', life)
    ensures LogKnown(ops', s.log)
  {
    forall k | 0 <= k < |s.log| ensures Knows(ops', s.log[k].life, s.log[k].data) {
      assert Knows(ops, s.log[k].life, s.log[k].data);
      assert InLog(s.log, s.log[k].life);
      assert Spares(ops, ops', s.log[k].life);
    }
  }

  /** `OS_write` through the destination's handle. */
  lemma WriteStep(w: World, b: Bytes, written: nat, s': Slot, synced: bool)
    requires Sound(w.s, w.os.ops) && w.s.handle.Some? && w.s.pos <= |w.s.data|
    requires SameFile(w.s, s') && s'.data == WriteBytes(w.s, b, written).data
    ensures DiskStep(w, World(s', UseToWrite(w.os, w.s, b, written), synced))
  {
    hide Overlay;
    var ops, op := w.os.ops, Write(w.s.handle.value, w.s.pos, Prefix(b, written));
    forall life: nat | life < |ops| && life != w.s.life ensures Spares(ops, ops + [op], life) {
      CallSpares(ops, op, life);
    }
    forall h | h in w.os.open && Some(h) != w.s.handle ensures SameFd(ops, ops + [op], h) {
      CallKeepsFd(ops, op, h);
    }
    CallKeepsFd(ops, op, w.s.handle.value);
    OwnWriteKnown(ops, w.s.handle.value, w.s.pos, Prefix(b, written), w.s.life, w.s.data);
    LogKept(ops, ops + [op], w.s);
    forall life: nat | IsLife(s', life) ensures IsLife(w.s, life) {
      SameFileLives(w.s, s', life);
    }
  }

  /** A close: at most a move, and the file goes into the log as it is. */
  lemma CloseStep(w: World, e: Entry, io: CloseIo)
    requires Sound(w.s, w.os.ops) && w.s.handle.Some?
    ensures DiskStep(w, CloseDest(w, e, io))
  {
    hide MoveTarget;
    var w' := CloseDest(w, e, io);
    var ops, ops' := w.os.ops, w'.os.ops;
    forall life: nat | life < |ops| ensures Spares(ops, ops', life) {
      if ops' != ops {
        CallSpares(ops, ops'[|ops|], life);
        assert ops' == ops + [ops'[|ops|]];
      }
    }
    forall h | h in w.os.open && Some(h) != w.s.handle ensures SameFd(ops, ops', h) {
      if ops' != ops {
        CallKeepsFd(ops, ops'[|ops|], h);
        assert ops' == ops + [ops'[|ops|]];
      }
    }
    LogKept(ops, ops', w.s);
    assert Spares(ops, ops', w.s.life);
    ClosedLives(w, e, io);
  }

  lemma ClosedLives(w: World, e: Entry, io: CloseIo)
    requires w.s.handle.Some?
    ensures forall life: nat | IsLife(CloseDest(w, e, io).s, life) :: IsLife(w.s, life)
  {
    hide MoveTarget;
    var log' := CloseDest(w, e, io).s.log;
    forall life: nat | InLog(log', life) ensures IsLife(w.s, life) {
      var k :| 0 <= k < |log'| && log'[k].life == life;
      if k < |w.s.log| {
        assert w.s.log[k].life == life;
      }
    }
  }

  /** `OS_OpenCreate` returned an unused handle. */
  lemma CreateStep(w: World, e: Entry, i: nat, name: string, handle: Option<nat>)
    requires Sound(w.s, w.os.ops) && w.s.handle.None? && handle.Some? && handle.value !in w.os.open
    ensures DiskStep(w, World(Blank(w.s, e, i, name, handle, |w.os.ops|), Opened(w.os, handle.value, name), w.synced))
  {
    var ops, op := w.os.ops, Create(handle.value, name);
    var ops' := ops + [op];
    assert ops'[..|ops|] == ops;
    forall life: nat | life < |ops| ensures Spares(ops, ops', life) {
      CallSpares(ops, op, life);
    }
    forall h | h in w.os.open && Some(h) != w.s.handle ensures SameFd(ops, ops', h) {
      CallKeepsFd(ops, op, h);
    }
    LogKept(ops, ops', w.s);
    CreatedKnown(ops, handle.value, name);
    assert forall k | 0 <= k < |w.s.log| :: Knows(ops, w.s.log[k].life, w.s.log[k].data);
  }

  lemma CreatedKnown(ops: seq<Op>, h: nat, name: string)
    ensures Knows(ops + [Create(h, name)], |ops|, []) && Holder(ops + [Create(h, name)], h, |ops|)
    ensures Stands(Replay(ops + [Create(h, name)]), name, |ops|)
  {
    assert (ops + [Create(h, name)])[..|ops|] == ops;
    ReplayIsProper(ops);
    NewFileOnDisk(Replay(ops), h, name, |ops|);
    hide Do;
  }

  lemma StepIsSound(w: World, w': World)
    requires DiskStep(w, w')
    ensures Sound(w'.s, w'.os.ops)
  {
  }

  lemma WriteErrorStep(w: World, e: Entry, io: CloseIo)
    requires Sound(w.s, w.os.ops) && w.s.handle.Some? && Holds(w.os, w.s.handle) && SEPARATOR in w.s.name
    ensures DiskStep(w, WriteError(w, e, io))
  {
    hide DiskStep, MoveTarget, Sound;
    var w1 := CloseDest(w, e, io);
    CloseStep(w, e, io);
    StepIsSound(w, w1);
    QuietStep(w1, WriteError(w, e, io));
    DiskStepOn(w, w1, WriteError(w, e, io));
  }

  /** A write, and if it failed, what `DS_FileWriteError` does. */
  lemma WriteOrFail(w: World, b: Bytes, written: nat, w1: World, e: Entry, io: CloseIo, ok: bool)
    requires Sound(w.s, w.os.ops) && w.s.handle.Some? && Holds(w.os, w.s.handle) && w.s.pos <= |w.s.data|
    requires SEPARATOR in w.s.name && SameFile(w.s, w1.s) && w1.s.name == w.s.name
    requires w1.s.data == WriteBytes(w.s, b, written).data && w1.os == UseToWrite(w.os, w.s, b, written)
    ensures DiskStep(w, if ok then w1 else WriteError(w1, e, io))
    ensures HandleMoves(w.os, w1.os, w.s.handle, w1.s.handle) && Sound(w1.s, w1.os.ops)
  {
    hide DiskStep, Overlay, Sound, WriteError;
    WriteStep(w, b, written, w1.s, w1.synced);
    StepIsSound(w, w1);
    if !ok {
      WriteErrorStep(w1, e, io);
      DiskStepOn(w, w1, WriteError(w1, e, io));
    }
  }

  lemma WriteDataStep(w: World, e: Entry, p: Bytes, io: WriteIo)
    requires Sound(w.s, w.os.ops) && w.s.handle.Some? && Holds(w.os, w.s.handle) && w.s.pos <= |w.s.data|
    requires SEPARATOR in w.s.name
    ensures DiskStep(w, WriteData(w, e, p, io))
  {
    hide DiskStep, Overlay, Prefix, Sound, WriteError;
    var s := WriteBytes(w.s, p, io.written);
    var used := w.(s := s, os := UseToWrite(w.os, w.s, p, io.written));
    if io.written == |p| {
      WriteOrFail(w, p, io.written, used.(s := Grow(s, |p|).(packets := s.packets + [p])), e, io.close, true);
    } else {
      WriteOrFail(w, p, io.written, used, e, io.close, false);
    }
  }

  lemma WriteHeaderStep(i: nat, w: World, e: Entry, io: CreateIo)
    requires Sound(w.s, w.os.ops) && w.s.handle.Some? && Holds(w.os, w.s.handle) && w.s.pos == |w.s.data|
    requires SEPARATOR in w.s.name
    ensures DiskStep(w, WriteHeader(w, e, i, io))
  {
    hide DiskStep, Sound, WriteError, DsHeader, NameBytes;
    WriteAtEnd(w.s, io.fsHeader, io.fsWritten);
    var s1 := WriteBytes(w.s, io.fsHeader, io.fsWritten);
    var w1 := w.(s := s1, os := UseToWrite(w.os, w.s, io.fsHeader, io.fsWritten));
    if io.fsWritten != FS_HEADER_SIZE {
      WriteOrFail(w, io.fsHeader, io.fsWritten, w1, e, io.close, false);
    } else {
      var g1 := w1.(s := Grow(s1, FS_HEADER_SIZE));
      WriteOrFail(w, io.fsHeader, io.fsWritten, g1, e, io.close, true);
      var header := DsHeader(i, e.nameType, NameBytes(w.s.name));
      var s2 := WriteBytes(g1.s, header, io.dsWritten);
      var w2 := g1.(s := s2, os := UseToWrite(g1.os, g1.s, header, io.dsWritten));
      if io.dsWritten == DS_HEADER_SIZE {
        WriteOrFail(g1, header, io.dsWritten, w2.(s := Grow(s2, DS_HEADER_SIZE)), e, io.close, true);
      } else {
        WriteOrFail(g1, header, io.dsWritten, w2, e, io.close, false);
      }
      DiskStepOn(w, g1, WriteHeader(w, e, i, io));
    }
  }

  lemma CreateDestStep(i: nat, w: World, e: Entry, io: CreateIo)
    requires Sound(w.s, w.os.ops) && CreateReady(i, w, e, io)
    ensures DiskStep(w, CreateDest(w, e, i, io))
  {
    hide DiskStep, Sound, WriteHeader, NameFor, SequenceText, NameBytes;
    var text := SequenceText(e.nameType, w.s.count, io.clock);
    var built := NameFor(e.parts, text);
    if built.Some? && io.handle.Some? {
      NameForIsUsable(e.parts, text);
      var w0 := World(Blank(w.s, e, i, built.value, io.handle, |w.os.ops|),
                      Opened(w.os, io.handle.value, built.value), w.synced);
      CreateStep(w, e, i, built.value, io.handle);
      StepIsSound(w, w0);
      WriteHeaderStep(i, w0, e, io);
      DiskStepOn(w, w0, WriteHeader(w0, e, i, io));
      SameFields(w, WriteHeader(w0, e, i, io), CreateDest(w, e, i, io));
    } else {
      QuietStep(w, CreateDest(w, e, i, io));
    }
  }

  lemma SameFields(w: World, w1: World, w2: World)
    requires DiskStep(w, w1) && SameFile(w1.s, w2.s) && w2.s.data == w1.s.data && w2.os == w1.os
    ensures DiskStep(w, w2)
  {
    forall life: nat | IsLife(w2.s, life) ensures IsLife(w.s, life) || life >= |w.os.ops| {
      SameFileLives(w1.s, w2.s, life);
    }
  }

  lemma NewFileStep(i: nat, w: World, e: Entry, p: Bytes, io: SetupIo)
    requires EntryFits(e) && History(i, w.s) && ClosedShape(w.s) && !w.os.fault
    requires Promised(io, w.os) && Bounded(io, p) && Sound(w.s, w.os.ops)
    ensures DiskStep(w, NewFile(w, e, i, p, io))
  {
    hide DiskStep, Sound, CreateDest, WriteData, History, Image, AllFramed;
    CreateDestStep(i, w, e, io.create);
    CreateDestIs(i, w, e, io.create);
    var w1 := CreateDest(w, e, i, io.create);
    StepIsSound(w, w1);
    if w1.s.handle.Some? {
      WriteDataStep(w1, e, p, io.write);
      DiskStepOn(w, w1, WriteData(w1, e, p, io.write));
    }
  }

  lemma CloseRegularlyStep(i: nat, w: World, e: Entry, update: UpdateIo, close: CloseIo)
    requires SlotInv(i, w.s) && w.s.handle.Some? && Holds(w.os, w.s.handle) && |update.time| == TIME_SIZE
    requires Sound(w.s, w.os.ops)
    ensures DiskStep(w, CloseDest(UpdateHeader(w, update), e, close))
    ensures ClosedRegularly(i, w, CloseDest(UpdateHeader(w, update), e, close))
  {
    hide DiskStep, Sound, CloseDest, History, Image, AllFramed, Overlay;
    var w1 := UpdateHeader(w, update);
    RegularClose(i, w, e, update, close);
    if update.sought {
      var s := w.s.(pos := FS_HEADER_SIZE);
      SoundAt(w.s, s, w.os.ops);
      OpenIsHeaded(i, w.s);
      WriteStep(w.(s := s), update.time, update.written, w1.s, w.synced);
      FromThere(w, w.(s := s), w1);
    } else {
      QuietStep(w, w1);
    }
    StepIsSound(w, w1);
    UpdateKeepsClosable(i, w, update);
    CloseStep(w1, e, close);
    DiskStepOn(w, w1, CloseDest(w1, e, close));
  }

  lemma OpenIsHeaded(i: nat, s: Slot)
    requires OpenShape(i, s)
    ensures |s.data| >= HEADER_SIZE
  {
  }

  lemma SoundAt(s: Slot, s': Slot, ops: seq<Op>)
    requires Sound(s, ops) && SameFile(s, s') && s'.data == s.data
    ensures Sound(s', ops)
  {
  }

  lemma FromThere(w0: World, w: World, w1: World)
    requires DiskStep(w, w1) && SameFile(w0.s, w.s) && w0.os == w.os
    ensures DiskStep(w0, w1)
  {
    forall life: nat | IsLife(w1.s, life) ensures IsLife(w0.s, life) || life >= |w0.os.ops| {
      SameFileLives(w0.s, w.s, life);
    }
  }

  lemma SetupWriteStep(i: nat, w: World, e: Entry, p: Bytes, io: SetupIo)
    requires EntryFits(e) && SlotInv(i, w.s) && Holds(w.os, w.s.handle)
    requires Promised(io, w.os) && Bounded(io, p) && Sound(w.s, w.os.ops)
    ensures DiskStep(w, SetupWrite(w, e, i, p, io))
  {
    hide DiskStep, Sound, WriteData, CloseDest, UpdateHeader, History, Image, AllFramed;
    if w.s.handle.None? {
      NewFileStep(i, w, e, p, io);
    } else if w.s.size + |p| > e.maxSize {
      CloseRegularlyStep(i, w, e, io.update, io.close);
      var w1 := CloseDest(UpdateHeader(w, io.update), e, io.close);
      StepIsSound(w, w1);
      NewFileStep(i, w1, e, p, io);
      DiskStepOn(w, w1, NewFile(w1, e, i, p, io));
    } else {
      WriteDataStep(w, e, p, io.write);
    }
  }

  lemma AgeTestStep(i: nat, w: World, e: Entry, update: UpdateIo, close: CloseIo)
    requires SlotInv(i, w.s) && Holds(w.os, w.s.handle) && |update.time| == TIME_SIZE && Sound(w.s, w.os.ops)
    ensures DiskStep(w, AgeTest(w, e, update, close))
  {
    hide DiskStep, CloseDest, UpdateHeader, SlotInv;
    if w.s.handle.Some? {
      OlderIsOpen(i, w.s);
      var w1 := w.(s := Older(w.s));
      SoundAt(w.s, w1.s, w.os.ops);
      QuietStep(w, w1);
      if w1.s.age >= e.maxAge {
        CloseRegularlyStep(i, w1, e, update, close);
        FromThere(w, w1, AgeTest(w, e, update, close));
      }
    } else {
      QuietStep(w, w);
    }
  }
}
