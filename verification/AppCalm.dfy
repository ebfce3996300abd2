/** Conditions on tables and inputs under which names never clash and runs are steady. */
module AppCalm {
  import opened HashChains
  import opened HashIndex
  import opened FilterAlgorithm
  import opened FileName
  import opened FileFormat
  import opened DestFile
  import opened DestFileProofs
  import opened DestKept
  import opened App
  import opened AppCore
  import opened AppSteps
  import opened AppRuns
  import opened AppNames
  import opened AppKept
  import AppDisk

  // ----- Tables whose names never clash

  /** Named by count, and no separator in base and extension. */
  predicate SimpleNames(e: Entry) {
    CountNamed(e) && SEPARATOR !in CStr(e.parts.base) && SEPARATOR !in CStr(e.parts.ext)
  }

  /** The part of a name behind its last separator, with it. */
  function LastPart(e: Entry, m: nat): string {
    [SEPARATOR] + CStr(e.parts.base) + Digits(m, SEQUENCE_DIGITS) + Suffix(CStr(e.parts.ext))
  }

  lemma LastPartOfName(e: Entry, m: nat, name: string)
    requires SimpleNames(e) && HasName(e, m, name)
    ensures FromLastSlash(name) == Some(LastPart(e, m))
  {
    hide MoveTarget, MoveDirectory, Digits, CStr, Directory, Suffix, FromLastSlash;
    var dir := Directory(CStr(e.parts.path));
    var created := ExactName(e.parts, Digits(m, SEQUENCE_DIGITS));
    DirectoryEnds(CStr(e.parts.path));
    SuffixIsPlain(CStr(e.parts.ext));
    Associate(dir[..|dir| - 1], CStr(e.parts.base), Digits(m, SEQUENCE_DIGITS), Suffix(CStr(e.parts.ext)));
    LastSlashOf(dir[..|dir| - 1], LastPart(e, m));
    assert created[|dir| - 1] == SEPARATOR;
    MoveKeepsFileName(e.movename, created);
  }

  lemma DirectoryEnds(path: string)
    requires path != []
    ensures var dir := Directory(path); dir != [] && dir == dir[..|dir| - 1] + [SEPARATOR]
  {
  }

  lemma SuffixIsPlain(ext: string)
    requires SEPARATOR !in ext
    ensures SEPARATOR !in Suffix(ext)
  {
  }

  lemma Associate(front: string, a: string, b: string, c: string)
    requires SEPARATOR !in a && SEPARATOR !in b && SEPARATOR !in c
    ensures front + [SEPARATOR] + a + b + c == front + ([SEPARATOR] + a + b + c)
    ensures SEPARATOR !in ([SEPARATOR] + a + b + c)[1..]
  {
    assert ([SEPARATOR] + a + b + c)[1..] == a + b + c;
  }

  lemma SimpleNamesDiffer(e: Entry)
    requires SimpleNames(e)
    ensures OwnNamesDiffer(e)
  {
    hide HasName, LastPart, SimpleNames;
    forall m: nat, n: nat, name: string | m < n <= MAX_SEQUENCE_COUNT && HasName(e, m, name) && HasName(e, n, name)
      ensures false
    {
      LastPartOfName(e, m, name);
      LastPartOfName(e, n, name);
      LastPartsDiffer(e, m, n);
    }
  }

  lemma LastPartsDiffer(e: Entry, m: nat, n: nat)
    requires m < n <= MAX_SEQUENCE_COUNT
    ensures LastPart(e, m) != LastPart(e, n)
  {
    hide Digits, Decode;
    var k := 1 + |CStr(e.parts.base)|;
    assert LastPart(e, m)[k..k + 8] == Digits(m, SEQUENCE_DIGITS);
    assert LastPart(e, n)[k..k + 8] == Digits(n, SEQUENCE_DIGITS);
    EightDigitsDecode(m);
    EightDigitsDecode(n);
  }

  /** Bases of one length that differ, or extensions of one length that differ. */
  predicate TellApart(e: Entry, e': Entry) {
    var b, b', x, x' := CStr(e.parts.base), CStr(e'.parts.base), Suffix(CStr(e.parts.ext)), Suffix(CStr(e'.parts.ext));
    (|b| == |b'| && b != b') || (|x| == |x'| && x != x')
  }

  lemma SimpleNamesApart(e: Entry, e': Entry)
    requires SimpleNames(e) && SimpleNames(e') && TellApart(e, e')
    ensures NamesApart(e, e')
  {
    hide HasName, Digits, SimpleNames;
    forall m: nat, n: nat, name: string
      | m <= MAX_SEQUENCE_COUNT && n <= MAX_SEQUENCE_COUNT && HasName(e, m, name) && HasName(e', n, name)
      ensures false
    {
      LastPartOfName(e, m, name);
      LastPartOfName(e', n, name);
      PartsApart(e, e', m, n);
    }
  }

  lemma PartsApart(e: Entry, e': Entry, m: nat, n: nat)
    requires TellApart(e, e')
    ensures LastPart(e, m) != LastPart(e', n)
  {
    hide Digits;
    var b, b', x, x' := CStr(e.parts.base), CStr(e'.parts.base), Suffix(CStr(e.parts.ext)), Suffix(CStr(e'.parts.ext));
    var p, p' := LastPart(e, m), LastPart(e', n);
    assert p[1..1 + |b|] == b && p'[1..1 + |b'|] == b';
    assert p[|p| - |x|..] == x && p'[|p'| - |x'|..] == x';
  }

  /** Unused entries, without a path, never name a file. */
  predicate SimpleTable(t: DestTable) {
    && (forall i | 0 <= i < DEST_FILES :: SimpleNames(t[i]))
    && (forall i, j | 0 <= i < j < DEST_FILES :: UnusedOrApart(t[i], t[j]))
  }

  predicate UnusedOrApart(e: Entry, e': Entry) {
    CStr(e.parts.path) == [] || CStr(e'.parts.path) == [] || TellApart(e, e')
  }

  lemma PairApart(e: Entry, e': Entry)
    requires SimpleNames(e) && SimpleNames(e') && UnusedOrApart(e, e')
    ensures NamesApart(e, e') && NamesApart(e', e)
  {
    if TellApart(e, e') {
      SimpleNamesApart(e, e');
      SimpleNamesApart(e', e);
    }
  }

  /** A check on the table alone that rules out all clashes. */
  lemma SimpleTableHasNoClash(t: DestTable)
    requires SimpleTable(t)
    ensures NoClash(t)
  {
    hide SimpleNames, NamesApart, UnusedOrApart;
    forall i | 0 <= i < DEST_FILES ensures CountNamed(t[i]) && OwnNamesDiffer(t[i]) {
      SimpleIsCountNamed(t[i]);
      SimpleNamesDiffer(t[i]);
    }
    forall i, j | 0 <= i < DEST_FILES && 0 <= j < DEST_FILES && i != j ensures NamesApart(t[i], t[j]) {
      assert UnusedOrApart(t[if i < j then i else j], t[if i < j then j else i]);
      PairApart(t[if i < j then i else j], t[if i < j then j else i]);
    }
  }

  lemma SimpleIsCountNamed(e: Entry)
    requires SimpleNames(e)
    ensures CountNamed(e)
  {
  }

  // ----- Inputs that keep a run steady

  predicate ChangesNames(cmd: Command) {
    cmd.SetDestType? || cmd.SetDestPath? || cmd.SetDestBase? || cmd.SetDestExt?
  }

  /** No command that changes a count or a name, no table load while DS runs; resets only where a good CDS is restored,
      with the same table or none; and every count too far below the greatest to roll over within one message. */
  predicate Calm(app: App, input: Input, t: DestTable) {
    match input
    case Message(ev, _, _) =>
      && (forall i | 0 <= i < DEST_FILES ::
            LeavesCount(ev, i) && app.core.slots[i].count + FILTERS <= MAX_SEQUENCE_COUNT)
      && (ev.CommandMsg? ==> !ChangesNames(ev.cmd))
    case Reset(destLoad, _, io) =>
      app.core.cds.good && io.Existing? && io.restored && (destLoad.Some? ==> NamesAre(destLoad, t))
  }

  /** The first start loads the table; everything after it is calm. */
  predicate CalmRun(apps: seq<App>, inputs: seq<Input>, k: nat, t: DestTable)
    requires k <= |inputs| && |apps| == |inputs| + 1
  {
    && (k > 0 ==> inputs[0].Reset? && (inputs[0].destLoad.Some? ==> NamesAre(inputs[0].destLoad, t)))
    && forall n | 1 <= n < k :: Calm(apps[n], inputs[n], t)
  }

  /** One message numbers at most one file of a destination for each filter. */
  lemma {:induction false} AtMostFilters(core: Core, dest: DestTable, filters: FilterList, p: Packet, ios: StoreIos,
                                         k: nat, i: nat)
    requires k <= FILTERS && i < DEST_FILES
    ensures |StoreFilters(core, dest, filters, p, ios, k).0.slots[i].made| <= |core.slots[i].made| + k
  {
    hide SetupWrite, IsPacketFiltered;
    if k > 0 {
      AtMostFilters(core, dest, filters, p, ios, k - 1, i);
      var before := StoreFilters(core, dest, filters, p, ios, k - 1).0;
      SetupWriteMakesOne(At(before, i), dest[i], i, p.bytes, ios[k - 1].setup);
    }
  }

  lemma SetupWriteMakesOne(w: World, e: Entry, i: nat, p: Bytes, io: SetupIo)
    ensures |SetupWrite(w, e, i, p, io).s.made| <= |w.s.made| + 1
  {
    hide CreateDest, WriteData, CloseDest, UpdateHeader;
    WriteDataNumbers(w, e, p, io.write);
    CloseNumbers(w, e, io.update, io.close);
    var w1 := CloseDest(UpdateHeader(w, io.update), e, io.close);
    CreateDestContinues(w, e, i, io.create);
    CreateDestContinues(w1, e, i, io.create);
    WriteDataNumbers(CreateDest(w, e, i, io.create), e, p, io.write);
    WriteDataNumbers(CreateDest(w1, e, i, io.create), e, p, io.write);
  }

  lemma OfferMakesFew(mid: App, ev: Event, p: Packet, ios: StoreIos, app': App, i: nat)
    requires Offer(mid, ev, p, ios, app') && i < DEST_FILES
    ensures |app'.core.slots[i].made| <= |mid.core.slots[i].made| + FILTERS
    ensures app'.dest == mid.dest
  {
    hide StoreFilters, SearchEnds;
    if Offered(mid, ev, p) && Reaches(mid, p) {
      AtMostFilters(mid.core, mid.dest.value, FiltersFor(mid, p), p, ios, FILTERS, i);
    }
  }

  lemma CommandKeepsNames(app: App, cmd: Command, t: DestTable)
    requires CanApply(app, cmd) && !ChangesNames(cmd) && NamesAre(app.dest, t)
    ensures NamesAre(Apply(app, cmd).dest, t)
  {
    hide CloseAll, CloseOne, SearchEnds, Find, Build;
  }

  lemma HandleKeepsNames(app: App, ev: Event, mid: App, t: DestTable)
    requires Handle(app, ev, mid) && NamesAre(app.dest, t) && forall i | 0 <= i < DEST_FILES :: LeavesCount(ev, i)
    requires ev.CommandMsg? ==> !ChangesNames(ev.cmd)
    ensures NamesAre(mid.dest, t)
  {
    hide NamesAre, AgeAll, Apply, Build;
    assert LeavesCount(ev, 0);
    if ev.CommandMsg? {
      CommandKeepsNames(app, ev.cmd, t);
    }
  }

  lemma CalmMessageIsSteady(app: App, ev: Event, p: Packet, ios: StoreIos, mid: App, app': App, t: DestTable)
    requires AppInv(app) && Handle(app, ev, mid) && Offer(mid, ev, p, ios, app') && Calm(app, Message(ev, p, ios), t)
    requires (ev.CommandMsg? ==> CommandKept(ev.cmd)) && NamesAre(app.dest, t)
    ensures Steady(app, Message(ev, p, ios), mid, app', t) && NamesAre(app'.dest, t)
  {
    hide AppInv, Handle, Offer, NamesAre;
    HandleKeepsNames(app, ev, mid, t);
    forall i | 0 <= i < DEST_FILES
      ensures SteadyCount(app.core.slots[i], mid.core.slots[i]) && NoRollover(mid.core.slots[i], app'.core.slots[i])
      ensures app'.dest == mid.dest
    {
      HandleNumbers(app, ev, mid, i);
      OfferMakesFew(mid, ev, p, ios, app', i);
    }
    OfferMakesFew(mid, ev, p, ios, app', 0);
  }

  lemma ResetIsSteady(app: App, destLoad: Option<DestTable>, filterLoad: Option<FilterTable>, io: CdsIo, t: DestTable)
    requires AppInv(app) && CdsKept(app.core, io) && NamesAre(app.dest, t) && (destLoad.Some? ==> NamesAre(destLoad, t))
    requires app == PowerOff() || (app.core.cds.good && io.Existing? && io.restored)
    ensures Steady(app, Reset(destLoad, filterLoad, io), app, Restart(app, destLoad, filterLoad, io), t)
    ensures NamesAre(Restart(app, destLoad, filterLoad, io).dest, t)
  {
    var app' := Restart(app, destLoad, filterLoad, io);
    AppDisk.RestartSlots(app, destLoad, filterLoad, io);
    forall i | 0 <= i < DEST_FILES ensures SteadyCount(app.core.slots[i], app'.core.slots[i]) {
      hide AppInv, Restart, CdsKept, NamesAre;
      if app != PowerOff() {
        ResetNumbers(app, destLoad, filterLoad, io, i);
      }
      assert app'.core.slots[i].handle.None?;
    }
  }

  lemma {:induction false} CalmRunIsSteady(apps: seq<App>, mids: seq<App>, inputs: seq<Input>, k: nat, t: DestTable)
    requires GoodRun(apps, mids, inputs) && k <= |inputs| && CalmRun(apps, inputs, k, t)
    ensures SteadyRun(apps, mids, inputs, k, t) && NamesAre(apps[k].dest, t)
  {
    hide NamesAre, Steady, AppInv, Calm, Handle, Offer, Restart, CdsKept, StoreKept;
    if k == 0 {
      NoTableYet(t);
    } else {
      CalmRunIsSteady(apps, mids, inputs, k - 1, t);
      RunKeeps(apps, mids, inputs, k - 1);
      CalmNext(apps, inputs, mids[k - 1], k, t);
    }
  }

  lemma NoTableYet(t: DestTable)
    ensures NamesAre(PowerOff().dest, t)
  {
  }

  lemma CalmNext(apps: seq<App>, inputs: seq<Input>, mid: App, k: nat, t: DestTable)
    requires 0 < k <= |inputs| && |apps| == |inputs| + 1 && apps[0] == PowerOff() && CalmRun(apps, inputs, k, t)
    requires AppInv(apps[k - 1]) && NamesAre(apps[k - 1].dest, t)
    requires Next(apps[k - 1], inputs[k - 1], mid, apps[k]) && InputKept(apps[k - 1], mid, inputs[k - 1])
    ensures Steady(apps[k - 1], inputs[k - 1], mid, apps[k], t) && NamesAre(apps[k].dest, t)
  {
    hide NamesAre, Steady, AppInv, Handle, Offer, Restart, CdsKept, StoreKept;
    var app := apps[k - 1];
    assert k > 1 ==> Calm(app, inputs[k - 1], t);
    match inputs[k - 1]
    case Message(ev, p, ios) => CalmMessageIsSteady(app, ev, p, ios, mid, apps[k], t);
    case Reset(destLoad, filterLoad, io) => ResetIsSteady(app, destLoad, filterLoad, io, t);
  }

  /** The storage theorem from conditions on table and inputs alone: with simple names that can be told apart, a first
      start that
      loads them, and calm inputs whose writes do not fail, the files on disk hold exactly what the filters promise. */
  lemma CalmStorage(apps: seq<App>, mids: seq<App>, inputs: seq<Input>, k: nat, t: DestTable)
    requires GoodRun(apps, mids, inputs) && k <= |inputs| && SimpleTable(t) && CalmRun(apps, inputs, k, t)
    requires forall j | 0 <= j < k :: WritesSucceed(mids[j], inputs[j])
    ensures forall i | 0 <= i < DEST_FILES ::
              ReadAll(AppDisk.DiskOf(apps[k].core), apps[k].core.slots[i]) == Promises(mids, inputs, k, i)
  {
    hide SimpleTable, NoClash, CalmRun, SteadyRun, WritesSucceed;
    SimpleTableHasNoClash(t);
    CalmRunIsSteady(apps, mids, inputs, k, t);
    WholeRunStorage(apps, mids, inputs, k, t);
  }
}
