/** The index over whole runs of table loads, ADD MID and REMOVE MID, and its design bound. */
module HashRuns {
  import opened HashChains
  import opened HashIndex

  const HIGHEST_VALID_MSGID: nat := 0x1FFF // CFE_PLATFORM_SB_HIGHEST_VALID_MSGID

  predicate IsValidMsgId(id: MsgId) {
    0 < id <= HIGHEST_VALID_MSGID
  }

  /** The index, the table's IDs, and the buckets that received an add since the index was last built. */
  datatype State = State(ix: Index, mids: Table, added: seq<nat>)

  datatype Op = Load(mids: Table) | AddMid(id: MsgId) | RemoveMid(id: MsgId)

  /** One operation; there is no next state where a search it makes does not end. */
  ghost predicate Step(s: State, op: Op, s': State) {
    match op
    case Load(mids) => s' == State(Build(mids), mids, [])
    case AddMid(id) =>
      if !IsValidMsgId(id) then s' == s
      else if !SearchEnds(s.ix, s.mids, id) then false
      else if Find(s.ix, s.mids, id) != -1 then s' == s
      else if !SearchEnds(s.ix, s.mids, INVALID_MSG_ID) then false
      else if Find(s.ix, s.mids, INVALID_MSG_ID) == -1 then s' == s
      else
        && AddAccepted(s.ix, s.mids, id)
        && var slot := Find(s.ix, s.mids, INVALID_MSG_ID);
           s' == State(Add(s.ix, id, slot), s.mids[slot := id], s.added + [Hash(id)])
    case RemoveMid(id) =>
      if !SearchEnds(s.ix, s.mids, id) then false
      else if !IsValidMsgId(id) || Find(s.ix, s.mids, id) == -1 then s' == s
      else
        && 0 <= Find(s.ix, s.mids, id) < ENTRIES
        && s' == Removed(s.mids, Find(s.ix, s.mids, id))
  }

  ghost function Removed(mids: Table, slot: nat): State
    requires slot < ENTRIES
  {
    var mids' := mids[slot := INVALID_MSG_ID];
    State(Build(mids'), mids', [])
  }

  ghost predicate Run(states: seq<State>, ops: seq<Op>) {
    && |states| == |ops| + 1
    && (exists mids :: states[0] == State(Build(mids), mids, []))
    && forall k | 0 <= k < |ops| :: Step(states[k], ops[k], states[k + 1])
  }

  /** What a caller can check before an ADD MID: its low byte is not zero and not used since the last build. */
  predicate GoodAdds(added: seq<nat>) {
    && 0 !in added
    && forall i, j | 0 <= i < j < |added| :: added[i] != added[j]
  }

  ghost predicate Invariant(s: State) {
    if GoodAdds(s.added) then
      exists base, tail :: Grown(s.ix, s.mids, base, tail) && forall b :: b in tail <==> b in s.added
    else
      WellFormed(s.ix) && exists b | 0 <= b < BUCKETS :: !Ends(s.ix.links, s.ix.heads[b])
  }

  lemma StepKeepsInvariant(s: State, op: Op, s': State)
    requires Invariant(s) && Step(s, op, s')
    ensures Invariant(s')
  {
    if s' != s {
      match op
      case Load(mids) => BuildIsGrown(mids);
      case RemoveMid(id) => BuildIsGrown(s'.mids);
      case AddMid(id) => AddKeepsInvariant(s, id, s');
    }
  }

  lemma AddKeepsInvariant(s: State, id: MsgId, s': State)
    requires Invariant(s) && Step(s, AddMid(id), s') && s' != s
    ensures Invariant(s')
  {
    AddedGrows(s.added, Hash(id));
    if !GoodAdds(s.added) {
      var slot := Find(s.ix, s.mids, INVALID_MSG_ID);
      var b :| 0 <= b < BUCKETS && !Ends(s.ix.links, s.ix.heads[b]);
      AddPointers(s.ix, id, slot);
      EndlessStaysEndless(s.ix, id, slot, b);
    } else {
      var base, tail :| Grown(s.ix, s.mids, base, tail) && forall b :: b in tail <==> b in s.added;
      AddToGrown(s, id, s', base, tail);
    }
  }

  lemma AddToGrown(s: State, id: MsgId, s': State, base: Table, tail: map<nat, nat>)
    requires Step(s, AddMid(id), s') && s' != s
    requires Grown(s.ix, s.mids, base, tail) && forall b :: b in tail <==> b in s.added
    requires GoodAdds(s'.added) <==> GoodAdds(s.added) && Hash(id) != 0 && Hash(id) !in s.added
    requires GoodAdds(s.added)
    ensures Invariant(s')
  {
    hide GoodAdds, Grown;
    if Hash(id) == 0 || Hash(id) in tail {
      BadAdd(s.ix, s.mids, base, tail, id);
      AddPointers(s.ix, id, Find(s.ix, s.mids, INVALID_MSG_ID));
    } else {
      var k := GoodAdd(s.ix, s.mids, base, tail, id);
      assert Grown(s'.ix, s'.mids, base, tail[Hash(id) := k]);
    }
  }

  lemma AddedGrows(added: seq<nat>, h: nat)
    ensures GoodAdds(added + [h]) <==> GoodAdds(added) && h != 0 && h !in added
  {
    var added' := added + [h];
    assert added'[..|added|] == added && added'[|added|] == h;
    assert forall i | 0 <= i < |added| :: added'[i] == added[i] && added[i] in added;
  }

  lemma FreshInvariant(mids: Table)
    ensures Invariant(State(Build(mids), mids, []))
  {
    BuildIsGrown(mids);
  }

  lemma {:induction false} RunKeepsInvariant(states: seq<State>, ops: seq<Op>, k: nat)
    requires Run(states, ops) && k <= |ops|
    ensures Invariant(states[k])
  {
    hide Invariant, Step;
    if k == 0 {
      FreshInvariant(states[0].mids);
    } else {
      RunKeepsInvariant(states, ops, k - 1);
      StepKeepsInvariant(states[k - 1], ops[k - 1], states[k]);
    }
  }

  /** No search for an absent ID of bucket `b` ever ends. */
  ghost predicate Stuck(ix: Index, mids: Table, b: nat) {
    forall id: MsgId | Hash(id) == b && id !in mids :: !SearchEnds(ix, mids, id)
  }

  /** In every reachable state all lists end if and only if the adds made since the last build had
      non-zero, pairwise distinct low bytes; and then every lookup is the linear scan. */
  lemma ListsEndIffAddsAreGood(states: seq<State>, ops: seq<Op>, k: nat)
    requires Run(states, ops) && k <= |ops|
    ensures AllEnd(states[k].ix) <==> GoodAdds(states[k].added)
    ensures GoodAdds(states[k].added) ==> LookupIsScan(states[k].ix, states[k].mids)
    ensures !GoodAdds(states[k].added) ==>
              exists b | 0 <= b < BUCKETS :: Stuck(states[k].ix, states[k].mids, b)
  {
    RunKeepsInvariant(states, ops, k);
    var s := states[k];
    if GoodAdds(s.added) {
      var base, tail :| Grown(s.ix, s.mids, base, tail) && forall b :: b in tail <==> b in s.added;
      GrownAllEnd(s.ix, s.mids, base, tail);
      GrownLookupIsScan(s.ix, s.mids, base, tail);
    } else {
      var b :| 0 <= b < BUCKETS && !Ends(s.ix.links, s.ix.heads[b]);
      forall id: MsgId | Hash(id) == b && id !in s.mids ensures !SearchEnds(s.ix, s.mids, id) {
        AbsentSearchNeverEnds(s.ix, s.mids, id);
      }
      assert Stuck(s.ix, s.mids, b);
    }
  }

  /** An accepted REMOVE MID restores a correct index from any state it is accepted in, and where
      the index was correct it changes no lookup but those of the removed ID and of the unused ID. */
  lemma RemoveRestores(s: State, id: MsgId, s': State)
    requires Step(s, RemoveMid(id), s') && s' != s
    ensures AllEnd(s'.ix) && LookupIsScan(s'.ix, s'.mids)
    ensures LookupIsScan(s.ix, s.mids) ==>
              forall other: MsgId | other != id && other != INVALID_MSG_ID ::
                Find(s'.ix, s'.mids, other) == Find(s.ix, s.mids, other)
  {
    FreshIndexCorrect(s'.mids);
    if LookupIsScan(s.ix, s.mids) {
      var slot := Find(s.ix, s.mids, id);
      forall other: MsgId | other != id && other != INVALID_MSG_ID
        ensures Find(s'.ix, s'.mids, other) == Find(s.ix, s.mids, other)
      {
        ScanIgnores(s.mids, s'.mids, slot, other);
        assert Find(s.ix, s.mids, other) == Scan(s.mids, other);
        assert Find(s'.ix, s'.mids, other) == Scan(s'.mids, other);
      }
    }
  }

  lemma ScanIgnores(mids: seq<MsgId>, mids': seq<MsgId>, slot: nat, id: MsgId)
    requires slot < |mids| && |mids'| == |mids|
    requires forall i | 0 <= i < |mids| && i != slot :: mids'[i] == mids[i]
    requires mids[slot] != id && mids'[slot] != id
    ensures Scan(mids', id) == Scan(mids, id)
  {
    var r, r' := Scan(mids, id), Scan(mids', id);
    if r != -1 {
      assert mids'[r] == id && id in mids';
    }
    if r' != -1 {
      assert mids[r'] == id && id in mids;
    }
  }

  /** While the adds were good, ADD MID is accepted exactly for absent IDs while an entry is unused. */
  lemma AcceptedIff(ix: Index, mids: Table, base: Table, tail: map<nat, nat>, id: MsgId)
    requires Grown(ix, mids, base, tail)
    ensures AddAccepted(ix, mids, id) <==> id != INVALID_MSG_ID && id !in mids && INVALID_MSG_ID in mids
    ensures forall added: seq<nat>, s': State | Step(State(ix, mids, added), AddMid(id), s') ::
              s'.added == added + [Hash(id)] <==> IsValidMsgId(id) && id !in mids && INVALID_MSG_ID in mids
  {
    GrownLookup(ix, mids, base, tail, id);
    GrownLookup(ix, mids, base, tail, INVALID_MSG_ID);
    GrownAllEnd(ix, mids, base, tail);
  }

  /** The failure is reachable from every table with room: two accepted adds that share a low byte. */
  lemma TwoAddsOfOneLowByte(mids: Table, i: nat, j: nat, x: MsgId, y: MsgId) returns (states: seq<State>)
    requires i < j < ENTRIES && mids[i] == mids[j] == INVALID_MSG_ID && x !in mids && y !in mids
    requires IsValidMsgId(x) && IsValidMsgId(y) && x != y && Hash(x) == Hash(y) != 0
    ensures Run(states, [AddMid(x), AddMid(y)])
    ensures !AllEnd(states[2].ix) && Stuck(states[2].ix, states[2].mids, Hash(y))
  {
    hide Step, Grown, BuildTo;
    var s0 := State(Build(mids), mids, []);
    BuildIsGrown(mids);
    var s1, tail, slot := GoodAddStep(s0, x, mids, map[]);
    assert s1.mids[if slot == i then j else i] == INVALID_MSG_ID;
    var s2 := BadAddStep(s1, y, mids, tail);
    ThreeStates(mids, s0, AddMid(x), s1, AddMid(y), s2);
    states := [s0, s1, s2];
  }

  lemma ThreeStates(mids: Table, s0: State, op0: Op, s1: State, op1: Op, s2: State)
    requires s0 == State(Build(mids), mids, [])
    requires Step(s0, op0, s1) && Step(s1, op1, s2)
    ensures Run([s0, s1, s2], [op0, op1])
  {
    hide Step, BuildTo;
  }

  lemma GoodAddStep(s: State, id: MsgId, base: Table, tail: map<nat, nat>)
    returns (s': State, tail': map<nat, nat>, slot: nat)
    requires Grown(s.ix, s.mids, base, tail)
    requires IsValidMsgId(id) && id !in s.mids && INVALID_MSG_ID in s.mids
    requires Hash(id) != 0 && Hash(id) !in tail
    ensures Step(s, AddMid(id), s') && Grown(s'.ix, s'.mids, base, tail')
    ensures tail'.Keys == tail.Keys + {Hash(id)}
    ensures slot < ENTRIES && s'.mids == s.mids[slot := id]
  {
    GrownLookup(s.ix, s.mids, base, tail, id);
    GrownLookup(s.ix, s.mids, base, tail, INVALID_MSG_ID);
    AcceptedIff(s.ix, s.mids, base, tail, id);
    slot := Find(s.ix, s.mids, INVALID_MSG_ID);
    var k := GoodAdd(s.ix, s.mids, base, tail, id);
    s', tail' := State(Add(s.ix, id, slot), s.mids[slot := id], s.added + [Hash(id)]), tail[Hash(id) := k];
  }

  lemma BadAddStep(s: State, id: MsgId, base: Table, tail: map<nat, nat>) returns (s': State)
    requires Grown(s.ix, s.mids, base, tail)
    requires IsValidMsgId(id) && id !in s.mids && INVALID_MSG_ID in s.mids
    requires Hash(id) == 0 || Hash(id) in tail
    ensures Step(s, AddMid(id), s')
    ensures !AllEnd(s'.ix) && Stuck(s'.ix, s'.mids, Hash(id))
  {
    GrownLookup(s.ix, s.mids, base, tail, id);
    GrownLookup(s.ix, s.mids, base, tail, INVALID_MSG_ID);
    AcceptedIff(s.ix, s.mids, base, tail, id);
    BadAdd(s.ix, s.mids, base, tail, id);
    var slot := Find(s.ix, s.mids, INVALID_MSG_ID);
    s' := State(Add(s.ix, id, slot), s.mids[slot := id], s.added + [Hash(id)]);
    AddPointers(s.ix, id, slot);
    forall other: MsgId | Hash(other) == Hash(id) && other !in s'.mids ensures !SearchEnds(s'.ix, s'.mids, other) {
      AbsentSearchNeverEnds(s'.ix, s'.mids, other);
    }
  }

  // ----- The design bound of eight links

  /** The entries of the table whose ID falls in bucket `b`. */
  function InBucket(mids: seq<MsgId>, b: nat, k: nat): set<nat>
    requires k <= |mids|
  {
    set i: nat | i < k && mids[i] % 256 == b
  }

  lemma {:induction false} BucketSize(mids: seq<MsgId>, b: nat, k: nat)
    requires k <= |mids|
    ensures |Bucket(mids, b, k)| == |InBucket(mids, b, k)|
  {
    if k > 0 {
      BucketSize(mids, b, k - 1);
      var before, after := InBucket(mids, b, k - 1), InBucket(mids, b, k);
      if Hash(mids[k - 1]) == b {
        assert after == before + {k - 1};
      } else {
        assert after == before;
      }
    }
  }

  /** The number of links on the list of bucket `b` in the index built for a table. */
  ghost predicate LinksOf(mids: Table, b: nat, n: nat) {
    && b < BUCKETS && Ends(Build(mids).links, Build(mids).heads[b])
    && |Chain(Build(mids).links, Build(mids).heads[b])| == n
  }

  lemma LinksAreBucket(mids: Table, b: nat)
    requires b < BUCKETS
    ensures LinksOf(mids, b, |Bucket(mids, b, ENTRIES)|)
  {
    FreshIndexCorrect(mids);
    hide Build;
    ChainUnique(Build(mids).links, Build(mids).heads[b], Bucket(mids, b, ENTRIES),
                Chain(Build(mids).links, Build(mids).heads[b]));
  }

  /** Exactly how long each list of a built index is, and so when the design bound holds of it. */
  lemma LinksIff(mids: Table, b: nat)
    requires b < BUCKETS
    ensures LinksOf(mids, b, |InBucket(mids, b, ENTRIES)|)
    ensures (exists n :: LinksOf(mids, b, n) && n <= 8) <==> |InBucket(mids, b, ENTRIES)| <= 8
  {
    LinksAreBucket(mids, b);
    BucketSize(mids, b, ENTRIES);
    hide Build;
  }

  /** The bound fails for bucket 0: with no entry in use, all links are on its list. */
  function UnusedIds(): Table {
    seq(ENTRIES, i => INVALID_MSG_ID)
  }

  lemma AllLinksInBucketZero()
    ensures LinksOf(UnusedIds(), 0, ENTRIES)
  {
    BucketOfAll(UnusedIds(), 0, ENTRIES);
    LinksAreBucket(UnusedIds(), 0);
    hide Build, LinksOf;
  }

  /** Used entries differ in the eleven bits that tell telemetry streams apart. */
  predicate DistinctStreams(mids: Table) {
    forall i, j | 0 <= i < j < ENTRIES && mids[i] != INVALID_MSG_ID && mids[j] != INVALID_MSG_ID ::
      mids[i] % 0x800 != mids[j] % 0x800
  }

  /** Then no bucket except bucket 0, which also collects the unused entries, has more than eight links. */
  lemma AtMostEightLinks(mids: Table, b: nat)
    requires DistinctStreams(mids) && 0 < b < BUCKETS
    ensures |Bucket(mids, b, ENTRIES)| <= 8
    ensures exists n :: LinksOf(mids, b, n) && n <= 8
  {
    hide LinksOf;
    LinksAreBucket(mids, b);
    var p := Bucket(mids, b, ENTRIES);
    BucketIs(mids, b, ENTRIES);
    assert forall j | 0 <= j < |p| :: p[j] in p;
    var q := seq(|p|, j requires 0 <= j < |p| => mids[p[j]] / 0x100 % 8);
    forall j, l | 0 <= j < l < |p| ensures q[j] != q[l] {
      if q[j] == q[l] {
        SameStream(mids[p[j]], mids[p[l]]);
      }
    }
    DistinctInSet(q, {0, 1, 2, 3, 4, 5, 6, 7});
  }

  lemma SameStream(x: MsgId, y: MsgId)
    requires Hash(x) == Hash(y) && x / 0x100 % 8 == y / 0x100 % 8
    ensures x % 0x800 == y % 0x800
  {
    assert x % 0x800 == x / 0x100 % 8 * 0x100 + x % 0x100;
    assert y % 0x800 == y / 0x100 % 8 * 0x100 + y % 0x100;
  }

  lemma {:induction false} DistinctInSet(q: seq<nat>, values: set<nat>)
    requires NoDuplicates(q) && forall j | 0 <= j < |q| :: q[j] in values
    ensures |q| <= |values|
  {
    if q != [] {
      var init := q[..|q| - 1];
      DistinctInSet(init, values - {Last(q)});
    }
  }

  /** The bound does not hold of every table of valid IDs: 0x01BB and 0x09BB are two valid IDs of the
      same stream number, and with them nine IDs share the low byte 0xBB. */
  function NineIds(): Table {
    seq(ENTRIES, i => if 0 <= i < 9 then 0x01BB + 0x100 * i else INVALID_MSG_ID)
  }

  lemma NineLinks()
    ensures forall i | 0 <= i < ENTRIES && NineIds()[i] != INVALID_MSG_ID :: IsValidMsgId(NineIds()[i])
    ensures exists n :: LinksOf(NineIds(), 0xBB, n) && n >= 9
  {
    hide LinksOf;
    LinksAreBucket(NineIds(), 0xBB);
    BucketOfAll(NineIds(), 0xBB, 9);
    BucketGrows(NineIds(), 0xBB, 9, ENTRIES);
  }

  lemma {:induction false} BucketOfAll(mids: Table, b: nat, k: nat)
    requires k <= ENTRIES && forall i | 0 <= i < k :: Hash(mids[i]) == b
    ensures |Bucket(mids, b, k)| == k
  {
    if k > 0 {
      BucketOfAll(mids, b, k - 1);
    }
  }

  lemma {:induction false} BucketGrows(mids: Table, b: nat, j: nat, k: nat)
    requires j <= k <= ENTRIES
    ensures |Bucket(mids, b, j)| <= |Bucket(mids, b, k)|
  {
    if j < k {
      BucketGrows(mids, b, j, k - 1);
    }
  }
}
