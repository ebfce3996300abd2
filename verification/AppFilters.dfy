/** The filters that packets can meet in a run. */
module AppFilters {
  import opened HashChains
  import opened HashIndex
  import HashRuns
  import opened FilterAlgorithm
  import opened FileName
  import opened FileFormat
  import opened DestFile
  import opened App
  import opened AppCore
  import opened AppSteps
  import opened AppRuns

  /** The filter table that an input brings into use, if it passes validation. */
  function LoadedBy(input: Input): Option<FilterTable> {
    var load := match input
      case Message(ev, _, _) =>
        (match ev
         case HkRequest(wellFormed, _, _, _, filterLoad) => if wellFormed then filterLoad else None
         case Timeout(_, _, filterLoad) => filterLoad
         case _ => None)
      case Reset(_, filterLoad, _) => filterLoad;
    if load.Some? && VerifyFilterTable(load.value) then load else None
  }

  /** Wherever an entry with a valid ID has a filter without a type, the filter was unused in the entry of this ID in
      `t`. */
  ghost predicate Origin(t: FilterTable, t': FilterTable) {
    forall r, k | 0 <= r < ENTRIES && 0 <= k < FILTERS :: FilterOrigin(t[r], t'[r], k)
  }

  ghost predicate FilterOrigin(e: PacketEntry, e': PacketEntry, k: nat)
    requires k < FILTERS
  {
    HashRuns.IsValidMsgId(e'.mid) && e'.filters[k].filterType == 0 ==> e.mid == e'.mid && e.filters[k] == UNUSED_FILTER
  }

  lemma LoadOrigin(t: FilterTable)
    requires VerifyFilterTable(t)
    ensures Origin(t, t)
  {
    forall r, k | 0 <= r < ENTRIES && 0 <= k < FILTERS ensures FilterOrigin(t[r], t[r], k) {
      if HashRuns.IsValidMsgId(t[r].mid) {
        assert VerifyFilter(t[r].filters[k]);
      }
    }
  }

  lemma EntryOrigin(t: FilterTable, t': FilterTable, r: nat, e: PacketEntry)
    requires Origin(t, t') && r < ENTRIES && forall k | 0 <= k < FILTERS :: FilterOrigin(t[r], e, k)
    ensures Origin(t, t'[r := e])
  {
    var t'' := t'[r := e];
    forall s, k | 0 <= s < ENTRIES && 0 <= k < FILTERS ensures FilterOrigin(t[s], t''[s], k) {
      assert FilterOrigin(t[s], t'[s], k);
    }
  }

  lemma ChangeOrigin(app: App, id: MsgId, k: nat, valid: bool, change: Parms -> Parms, t: FilterTable)
    requires AppInv(app) && app.filter.Some? && CanFindEntry(app, id) && Origin(t, app.filter.value)
    requires valid ==> forall f: Parms :: change(f).filterType == f.filterType || change(f).filterType != 0
    ensures ChangeFilter(app, id, k, valid, change).filter.Some?
    ensures Origin(t, ChangeFilter(app, id, k, valid, change).filter.value)
  {
    hide Origin, AppInv;
    if HashRuns.IsValidMsgId(id) && k < FILTERS && valid && Lookup(app, id) != -1 {
      var r, t' := Lookup(app, id), app.filter.value;
      var e := t'[r].(filters := t'[r].filters[k := change(t'[r].filters[k])]);
      forall j | 0 <= j < FILTERS ensures FilterOrigin(t[r], e, j) {
        OneOrigin(t, t', r, j);
      }
      EntryOrigin(t, t', r, e);
    }
  }

  lemma OneOrigin(t: FilterTable, t': FilterTable, r: nat, k: nat)
    requires Origin(t, t') && r < ENTRIES && k < FILTERS
    ensures FilterOrigin(t[r], t'[r], k)
  {
  }

  lemma CommandOrigin(app: App, cmd: Command, t: FilterTable)
    requires AppInv(app) && CanApply(app, cmd) && app.filter.Some? && Origin(t, app.filter.value)
    ensures Apply(app, cmd).filter.Some? && Origin(t, Apply(app, cmd).filter.value)
  {
    hide Origin, AppInv, CloseAll, CloseOne, Build;
    match cmd
    case SetFilterFile(id, k, fileIndex) =>
      ChangeOrigin(app, id, k, fileIndex < DEST_FILES, (f: Parms) => f.(fileIndex := fileIndex), t);
    case SetFilterType(id, k, filterType) =>
      ChangeOrigin(app, id, k, VerifyType(filterType), (f: Parms) => f.(filterType := filterType), t);
    case SetFilterParms(id, k, n, x, o) =>
      ChangeOrigin(app, id, k, VerifyParms(n, x, o), (f: Parms) => f.(n := n, x := x, o := o), t);
    case AddMID(id) =>
      if Apply(app, cmd).filter != app.filter {
        EntryOrigin(t, app.filter.value, Lookup(app, INVALID_MSG_ID), ResetEntry(id));
      }
    case RemoveMID(id) =>
      if Apply(app, cmd).filter != app.filter {
        EntryOrigin(t, app.filter.value, Lookup(app, id), ResetEntry(INVALID_MSG_ID));
      }
    case _ =>
  }

  lemma NextOrigin(app: App, input: Input, mid: App, app': App, t: FilterTable)
    requires AppInv(app) && Next(app, input, mid, app') && InputKept(app, mid, input)
    requires app.filter.Some? ==> Origin(t, app.filter.value)
    ensures LoadedBy(input).Some? ==> app'.filter == LoadedBy(input)
    ensures LoadedBy(input).None? && app'.filter.Some? ==>
              app.filter.Some? && Origin(t, app'.filter.value)
  {
    hide Origin, AppInv, AgeAll, Build, StoreFilters, StoreKept, CdsKept, UpdateCds, SearchEnds;
    match input
    case Message(ev, p, ios) =>
      if ev.CommandMsg? && app.filter.Some? {
        CommandOrigin(app, ev.cmd, t);
      } else if ev.CommandMsg? {
        NoFilterStays(app, ev.cmd);
      }
      OfferSubscribes(mid, ev, p, ios, app');
    case Reset(destLoad, filterLoad, io) =>
  }

  lemma NoFilterStays(app: App, cmd: Command)
    requires CanApply(app, cmd) && app.filter.None?
    ensures Apply(app, cmd).filter.None?
  {
    hide CloseAll, CloseOne, Build, SearchEnds;
  }

  /** Where a filter can lack a type: input number `j` loaded the table, with this filter unused in the entry of this
      ID. */
  lemma {:induction false} TypeZeroOrigin(apps: seq<App>, mids: seq<App>, inputs: seq<Input>, k: nat) returns (j: nat)
    requires GoodRun(apps, mids, inputs) && k <= |inputs| && apps[k].filter.Some?
    ensures j < k && LoadedBy(inputs[j]).Some? && Origin(LoadedBy(inputs[j]).value, apps[k].filter.value)
  {
    hide Origin, AppInv, Next, InputKept, LoadedBy;
    if k == 0 {
      NothingLoaded();
      assert false;
    } else {
      RunKeeps(apps, mids, inputs, k - 1);
      var t: FilterTable :=
        if apps[k - 1].filter.Some? then apps[k - 1].filter.value else seq(ENTRIES, i => ResetEntry(0));
      j := 0;
      if apps[k - 1].filter.Some? {
        j := TypeZeroOrigin(apps, mids, inputs, k - 1);
        t := LoadedBy(inputs[j]).value;
      }
      NextOrigin(apps[k - 1], inputs[k - 1], mids[k - 1], apps[k], t);
      if LoadedBy(inputs[k - 1]).Some? {
        LoadedIsVerified(inputs[k - 1]);
        LoadOrigin(LoadedBy(inputs[k - 1]).value);
        j := k - 1;
      }
    }
  }

  lemma NothingLoaded()
    ensures PowerOff().filter.None?
  {
  }

  lemma LoadedIsVerified(input: Input)
    requires LoadedBy(input).Some?
    ensures VerifyFilterTable(LoadedBy(input).value)
  {
  }

  /** The guards of `DS_IsPacketFiltered` on X, N and O cannot fire, and the one on the type fires only if there is
      none. */
  ghost predicate GuardsIdle(f: Parms) {
    f.n != 0 ==>
      && f.x != 0 && f.n <= f.x && f.o < f.x
      && if f.filterType == 0 then forall p :: IsPacketFiltered(p, f) else Usable(f)
  }

  /** In every state of every run each filter of an entry with a valid ID has a file index below 16, parameters that
      validation accepts, and type 0, 1 or 2; and whenever a packet reaches the filters of its entry, the guards idle. */
  lemma ReachableFilters(apps: seq<App>, mids: seq<App>, inputs: seq<Input>, k: nat)
    requires GoodRun(apps, mids, inputs) && k <= |inputs|
    ensures apps[k].filter.Some? ==>
              forall r, f | 0 <= r < ENTRIES && 0 <= f < FILTERS && HashRuns.IsValidMsgId(apps[k].filter.value[r].mid) ::
                var parms := apps[k].filter.value[r].filters[f];
                && parms.fileIndex < DEST_FILES && VerifyParms(parms.n, parms.x, parms.o) && parms.filterType <= 2
                && GuardsIdle(parms)
    ensures (&& k < |inputs| && inputs[k].Message? && Reaches(mids[k], inputs[k].p)
             && HashRuns.IsValidMsgId(inputs[k].p.mid)) ==>
              forall f | 0 <= f < FILTERS :: GuardsIdle(FiltersFor(mids[k], inputs[k].p)[f])
  {
    hide CoreInv, DestInv, IndexInv, Accounted, Next, StoreKept, SearchEnds, Handle;
    RunKeeps(apps, mids, inputs, k);
    if apps[k].filter.Some? {
      GoodTableIsIdle(apps[k].filter.value);
    }
    if k < |inputs| && inputs[k].Message? && Reaches(mids[k], inputs[k].p) {
      NextIsHandle(apps[k], inputs[k], mids[k], apps[k + 1]);
      HandleKeeps(apps[k], inputs[k].ev, mids[k]);
      GoodTableIsIdle(mids[k].filter.value);
      LookupInRange(mids[k], inputs[k].p.mid);
    }
  }

  lemma NextIsHandle(app: App, input: Input, mid: App, app': App)
    requires Next(app, input, mid, app') && input.Message?
    ensures Handle(app, input.ev, mid)
  {
  }

  lemma GoodTableIsIdle(t: FilterTable)
    requires GoodTable(t)
    ensures forall r, f | 0 <= r < ENTRIES && 0 <= f < FILTERS && HashRuns.IsValidMsgId(t[r].mid) ::
              var parms := t[r].filters[f];
              && parms.fileIndex < DEST_FILES && VerifyParms(parms.n, parms.x, parms.o) && parms.filterType <= 2
              && GuardsIdle(parms)
  {
    forall r, f | 0 <= r < ENTRIES && 0 <= f < FILTERS && HashRuns.IsValidMsgId(t[r].mid)
      ensures GoodFilter(t[r].filters[f])
    {
      assert GoodEntry(t[r]);
    }
  }

  // ----- SET FILTER PARMS on an unused filter

  /** SET FILTER PARMS is accepted. */
  ghost predicate ParmsAccepted(app: App, id: MsgId, k: nat, n: nat, x: nat, o: nat) {
    && HashRuns.IsValidMsgId(id) && k < FILTERS && VerifyParms(n, x, o) && app.filter.Some?
    && CanFindEntry(app, id) && Lookup(app, id) != -1
  }

  /** An accepted SET FILTER PARMS with N other than 0 yields a filter that can pass packets if and only if the filter
      had a
      type before; one without a type passes nothing, although the command counts as carried out. */
  lemma SetParmsUsableIff(app: App, id: MsgId, k: nat, n: nat, x: nat, o: nat)
    requires AppInv(app) && ParmsAccepted(app, id, k, n, x, o) && n != 0
    ensures var r, app' := Lookup(app, id), Apply(app, SetFilterParms(id, k, n, x, o));
            && app'.cnt.accepted == (app.cnt.accepted + 1) % 256 && app'.filter.Some?
            && var f' := app'.filter.value[r].filters[k];
               && f'.n == n
               && (Usable(f') <==> app.filter.value[r].filters[k].filterType != 0)
               && (!Usable(f') ==> forall p :: IsPacketFiltered(p, f'))
  {
    hide CoreInv, DestInv, IndexInv, Accounted, SearchEnds;
    var t, r := app.filter.value, Lookup(app, id);
    LookupInRange(app, id);
    assert GoodEntry(t[r]) && t[r].mid == id;
    assert GoodFilter(t[r].filters[k]);
  }

  /** The failing input: an unused filter, as validation accepts it. */
  lemma SetParmsOnUnusedPassesNothing(app: App, id: MsgId, k: nat, n: nat, x: nat, o: nat, p: Packet)
    requires AppInv(app) && ParmsAccepted(app, id, k, n, x, o) && n != 0
    requires app.filter.value[Lookup(app, id)].filters[k] == UNUSED_FILTER
    ensures IsPacketFiltered(p, Apply(app, SetFilterParms(id, k, n, x, o)).filter.value[Lookup(app, id)].filters[k])
  {
    SetParmsUsableIff(app, id, k, n, x, o);
  }
}
