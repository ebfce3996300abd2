/** The message ID index as a whole: what building it yields, what a lookup returns,
    and what ADD MID and REMOVE MID do to it over whole runs. */
module HashIndex {
  import opened HashChains

  type Table = t: seq<MsgId> | |t| == ENTRIES witness seq(ENTRIES, i => INVALID_MSG_ID)

  // ----- The plain linear scan

  /** The least position at or after `from` that holds `id`, or -1. */
  function ScanFrom(mids: seq<MsgId>, id: MsgId, from: nat): (r: int)
    requires from <= |mids|
    ensures r == -1 || from <= r < |mids|
    ensures r != -1 ==> mids[r] == id && forall i | from <= i < r :: mids[i] != id
    ensures r == -1 ==> forall i | from <= i < |mids| :: mids[i] != id
    decreases |mids| - from
  {
    if from == |mids| then -1
    else if mids[from] == id then from
    else ScanFrom(mids, id, from + 1)
  }

  function Scan(mids: seq<MsgId>, id: MsgId): (r: int)
    ensures r == -1 || 0 <= r < |mids|
    ensures r != -1 ==> mids[r] == id && forall i | 0 <= i < r :: mids[i] != id
    ensures r == -1 <==> id !in mids
  {
    ScanFrom(mids, id, 0)
  }

  // ----- The search of DS_TableFindMsgID

  /** The table entry that link `i` stands for holds `id`. */
  ghost predicate Hit(ix: Index, mids: Table, i: nat, id: MsgId) {
    i < |ix.links| && ix.links[i].index < ENTRIES && mids[ix.links[i].index] == id
  }

  /** The search for `id` passes the links `p` without a match and stops at `z`. */
  ghost predicate SearchStopsAt(ix: Index, mids: Table, id: MsgId, p: seq<nat>, z: Ref) {
    && Hash(id) < |ix.heads|
    && Walk(ix.links, ix.heads[Hash(id)], p, z)
    && (forall k | 0 <= k < |p| :: !Hit(ix, mids, p[k], id))
    && (z == Null || Hit(ix, mids, z.at, id))
  }

  ghost predicate SearchEnds(ix: Index, mids: Table, id: MsgId) {
    exists p, z :: SearchStopsAt(ix, mids, id, p, z)
  }

  /** `DS_TableFindMsgID`: an entry number or -1, defined only where the search ends. */
  ghost function Find(ix: Index, mids: Table, id: MsgId): int
    requires SearchEnds(ix, mids, id)
  {
    var p, z :| SearchStopsAt(ix, mids, id, p, z);
    if z == Null then -1 else ix.links[z.at].index
  }

  lemma FindIs(ix: Index, mids: Table, id: MsgId, p: seq<nat>, z: Ref)
    requires SearchStopsAt(ix, mids, id, p, z)
    ensures SearchEnds(ix, mids, id)
    ensures Find(ix, mids, id) == if z == Null then -1 else ix.links[z.at].index
  {
    forall p', z' | SearchStopsAt(ix, mids, id, p', z') ensures z' == z {
      StopIsUnique(ix, mids, id, p, z, p', z');
    }
  }

  lemma StopIsUnique(ix: Index, mids: Table, id: MsgId, p: seq<nat>, z: Ref, p': seq<nat>, z': Ref)
    requires SearchStopsAt(ix, mids, id, p, z) && SearchStopsAt(ix, mids, id, p', z')
    ensures p == p' && z == z'
  {
    WalksAgree(ix.links, ix.heads[Hash(id)], p, z, p', z');
  }

  lemma {:induction false} WalksAgree(links: seq<Link>, a: Ref, p: seq<nat>, z: Ref, p': seq<nat>, z': Ref)
    requires Walk(links, a, p, z) && Walk(links, a, p', z')
    ensures |p| <= |p'| ==> p <= p' && z == if |p| < |p'| then To(p'[|p|]) else z'
    ensures |p'| <= |p| ==> p' <= p && z' == if |p'| < |p| then To(p[|p'|]) else z
    decreases |p|
  {
    if p != [] && p' != [] {
      WalksAgree(links, links[p[0]].next, p[1..], z, p'[1..], z');
      assert p == [p[0]] + p[1..] && p' == [p'[0]] + p'[1..];
    }
  }

  /** Index and table agree: every search ends, and finds what the linear scan finds. */
  ghost predicate LookupIsScan(ix: Index, mids: Table) {
    forall id: MsgId :: SearchEnds(ix, mids, id) && Find(ix, mids, id) == Scan(mids, id)
  }

  ghost predicate AllEnd(ix: Index) {
    |ix.heads| == BUCKETS && forall b | 0 <= b < BUCKETS :: Ends(ix.links, ix.heads[b])
  }

  /** Searching a list that ends: if the scan's answer is on it, and nothing before the answer
      matches, the search returns it; if nothing on the list matches, the search returns -1. */
  lemma FindOnChain(ix: Index, mids: Table, id: MsgId, p: seq<nat>, k: nat)
    requires WellFormed(ix) && Walk(ix.links, ix.heads[Hash(id)], p, Null) && k <= |p|
    requires forall i | 0 <= i < ENTRIES :: ix.links[i].index == i
    requires forall j | 0 <= j < k :: p[j] < ENTRIES && mids[p[j]] != id
    requires k < |p| ==> p[k] < ENTRIES && mids[p[k]] == id
    ensures SearchEnds(ix, mids, id)
    ensures Find(ix, mids, id) == if k < |p| then p[k] else -1
  {
    WalkSplit(ix.links, ix.heads[Hash(id)], p, Null, k);
    FindIs(ix, mids, id, p[..k], if k < |p| then To(p[k]) else Null);
  }

  /** A bucket whose list does not end is never searched to the end for an absent ID. */
  lemma AbsentSearchNeverEnds(ix: Index, mids: Table, id: MsgId)
    requires WellFormed(ix) && !Ends(ix.links, ix.heads[Hash(id)]) && id !in mids
    ensures !SearchEnds(ix, mids, id)
  {
    forall p, z | SearchStopsAt(ix, mids, id, p, z) ensures z != Null {
    }
  }

  // ----- DS_TableCreateHash

  const NO_LINK := Link(0, 0, Null)

  function Empty(): Index {
    Index(seq(ENTRIES, i => NO_LINK), seq(BUCKETS, b => Null))
  }

  /** The entries before `k` whose ID falls in bucket `b`, ascending. */
  function Bucket(mids: seq<MsgId>, b: nat, k: nat): seq<nat>
    requires k <= |mids|
  {
    if k == 0 then []
    else Bucket(mids, b, k - 1) + if Hash(mids[k - 1]) == b then [k - 1] else []
  }

  lemma {:induction false} BucketIs(mids: seq<MsgId>, b: nat, k: nat)
    requires k <= |mids|
    ensures forall i | 0 <= i < k :: i in Bucket(mids, b, k) <==> mids[i] % 256 == b
    ensures forall i | i in Bucket(mids, b, k) :: i < k
    ensures forall j, l | 0 <= j < l < |Bucket(mids, b, k)| :: Bucket(mids, b, k)[j] < Bucket(mids, b, k)[l]
  {
    if k > 0 {
      BucketIs(mids, b, k - 1);
      var p, p' := Bucket(mids, b, k - 1), Bucket(mids, b, k);
      assert forall j | 0 <= j < |p| :: p'[j] == p[j] && p[j] in p;
    }
  }

  /** No entry is in two buckets, so the last link of one is not on the list of another. */
  lemma BucketsDisjoint(mids: seq<MsgId>, b: nat, c: nat, k: nat)
    requires k <= |mids| && b != c
    ensures Bucket(mids, b, k) != [] ==> Last(Bucket(mids, b, k)) !in Bucket(mids, c, k)
    ensures k !in Bucket(mids, b, k)
  {
    BucketIs(mids, b, k);
    BucketIs(mids, c, k);
    if Bucket(mids, b, k) != [] {
      assert Last(Bucket(mids, b, k)) in Bucket(mids, b, k);
    }
  }

  /** Exactly the first `k` entries are linked in, each bucket holding its own in ascending order. */
  ghost predicate Built(ix: Index, mids: Table, k: nat)
    requires k <= ENTRIES
  {
    && WellFormed(ix)
    && (forall b | 0 <= b < BUCKETS :: Walk(ix.links, ix.heads[b], Bucket(mids, b, k), Null))
    && (forall i | 0 <= i < k :: ix.links[i].index == i && ix.links[i].mid == mids[i])
    && (forall i | k <= i < ENTRIES :: ix.links[i].next == Null)
  }

  lemma BuiltStep(ix: Index, mids: Table, k: nat)
    requires k < ENTRIES && Built(ix, mids, k)
    ensures Ends(ix.links, ix.heads[Hash(mids[k])])
    ensures Built(Add(ix, mids[k], k), mids, k + 1)
  {
    var h := Hash(mids[k]);
    assert Walk(ix.links, ix.heads[h], Bucket(mids, h, k), Null);
    BuiltStepOwn(ix, mids, k);
    BuiltStepLinks(ix, mids, k);
    forall b | 0 <= b < BUCKETS
      ensures Walk(Add(ix, mids[k], k).links, Add(ix, mids[k], k).heads[b], Bucket(mids, b, k + 1), Null)
    {
      assert Walk(ix.links, ix.heads[b], Bucket(mids, b, k), Null);
      if b != h {
        BuiltStepOther(ix, mids, k, b);
      }
    }
  }

  lemma BuiltStepOther(ix: Index, mids: Table, k: nat, b: nat)
    requires k < ENTRIES && WellFormed(ix) && b < BUCKETS && b != Hash(mids[k])
    requires Walk(ix.links, ix.heads[Hash(mids[k])], Bucket(mids, Hash(mids[k]), k), Null)
    requires Walk(ix.links, ix.heads[b], Bucket(mids, b, k), Null)
    ensures Ends(ix.links, ix.heads[Hash(mids[k])])
    ensures Walk(Add(ix, mids[k], k).links, Add(ix, mids[k], k).heads[b], Bucket(mids, b, k + 1), Null)
  {
    assert Bucket(mids, b, k + 1) == Bucket(mids, b, k);
    BucketsDisjoint(mids, Hash(mids[k]), b, k);
    AppendKeepsOthers(ix, mids[k], k, Bucket(mids, Hash(mids[k]), k), b, Bucket(mids, b, k));
  }

  lemma BuiltStepOwn(ix: Index, mids: Table, k: nat)
    requires k < ENTRIES && WellFormed(ix) && ix.links[k].next == Null
    requires Walk(ix.links, ix.heads[Hash(mids[k])], Bucket(mids, Hash(mids[k]), k), Null)
    ensures Ends(ix.links, ix.heads[Hash(mids[k])])
    ensures Walk(Add(ix, mids[k], k).links, Add(ix, mids[k], k).heads[Hash(mids[k])],
                 Bucket(mids, Hash(mids[k]), k + 1), Null)
  {
    var p := Bucket(mids, Hash(mids[k]), k);
    assert Walk(ix.links, To(k), [k], Null);
    BucketIs(mids, Hash(mids[k]), k);
    assert p != [] ==> Last(p) in p;
    AppendJoins(ix, mids[k], k, p, [k]);
  }

  lemma BuiltStepLinks(ix: Index, mids: Table, k: nat)
    requires k < ENTRIES && WellFormed(ix)
    requires Walk(ix.links, ix.heads[Hash(mids[k])], Bucket(mids, Hash(mids[k]), k), Null)
    requires forall i | 0 <= i < k :: ix.links[i].index == i && ix.links[i].mid == mids[i]
    requires forall i | k <= i < ENTRIES :: ix.links[i].next == Null
    ensures Ends(ix.links, ix.heads[Hash(mids[k])])
    ensures var ix' := Add(ix, mids[k], k);
            && WellFormed(ix')
            && (forall i | 0 <= i < k + 1 :: ix'.links[i].index == i && ix'.links[i].mid == mids[i])
            && (forall i | k + 1 <= i < ENTRIES :: ix'.links[i].next == Null)
  {
    hide Bucket;
    var h := Hash(mids[k]);
    var p := Bucket(mids, h, k);
    ChainUnique(ix.links, ix.heads[h], p, Chain(ix.links, ix.heads[h]));
    AddPointers(ix, mids[k], k);
    BucketIs(mids, h, k);
    assert p != [] ==> Last(p) in p;
  }

  /** The first `k` rounds of the loop in `DS_TableCreateHash`, from zeroed memory. */
  ghost function BuildTo(mids: Table, k: nat): (ix: Index)
    requires k <= ENTRIES
    ensures Built(ix, mids, k)
  {
    if k == 0 then
      Empty()
    else
      var ix := BuildTo(mids, k - 1);
      BuiltStep(ix, mids, k - 1);
      Add(ix, mids[k - 1], k - 1)
  }

  ghost function Build(mids: Table): Index {
    BuildTo(mids, ENTRIES)
  }

  // ----- What ADD MID leaves behind

  /** Bucket 0 of a freshly built index: every unused entry, and every ID with a zero low byte. */
  function ZeroBucket(base: Table): seq<nat> {
    Bucket(base, 0, ENTRIES)
  }

  /** Links on the list of bucket `b` after adds to an index built for `base`: `tail` says, for
      each bucket that received an add, at which position of bucket 0 its borrowed tail starts. */
  function Shape(base: Table, tail: map<nat, nat>, b: nat): seq<nat>
    requires b in tail ==> tail[b] <= |ZeroBucket(base)|
  {
    Bucket(base, b, ENTRIES) + if b in tail then ZeroBucket(base)[tail[b]..] else []
  }

  ghost predicate TailsInRange(base: Table, tail: map<nat, nat>) {
    forall b | b in tail :: 0 < b < BUCKETS && tail[b] < |ZeroBucket(base)|
  }

  /** The entry that the add to bucket `b` took. */
  function Taken(base: Table, tail: map<nat, nat>, b: nat): nat
    requires b in tail && tail[b] < |ZeroBucket(base)|
  {
    ZeroBucket(base)[tail[b]]
  }

  /** Entry `s` was unused in `base` and now holds an ID of bucket `b` that no other entry holds. */
  ghost predicate TakenFor(mids: Table, base: Table, s: nat, b: nat) {
    && s < ENTRIES
    && base[s] == INVALID_MSG_ID && Hash(mids[s]) == b
    && forall i | 0 <= i < ENTRIES && i != s :: mids[i] != mids[s]
  }

  /** The entries listed in `zero` that are unused all stand at position `k` or later. */
  ghost predicate FreeOnlyFrom(mids: Table, zero: seq<nat>, k: nat) {
    forall j | 0 <= j < |zero| :: zero[j] < ENTRIES && (mids[zero[j]] == INVALID_MSG_ID ==> k <= j)
  }

  ghost predicate GrownTable(mids: Table, base: Table, tail: map<nat, nat>)
    requires TailsInRange(base, tail)
  {
    && (forall b | b in tail :: TakenFor(mids, base, Taken(base, tail, b), b))
    && (forall i | 0 <= i < ENTRIES :: mids[i] == base[i] || exists b :: b in tail && i == Taken(base, tail, b))
    && (forall b | b in tail :: FreeOnlyFrom(mids, ZeroBucket(base), tail[b] + 1))
  }

  /** An index built for `base` that has since received one add per bucket of `tail`. */
  ghost predicate Grown(ix: Index, mids: Table, base: Table, tail: map<nat, nat>) {
    && WellFormed(ix)
    && TailsInRange(base, tail)
    && GrownTable(mids, base, tail)
    && (forall i | 0 <= i < ENTRIES :: ix.links[i].index == i)
    && (forall b | 0 <= b < BUCKETS :: Walk(ix.links, ix.heads[b], Shape(base, tail, b), Null))
  }

  lemma BuildIsGrown(mids: Table)
    ensures Grown(Build(mids), mids, mids, map[])
  {
    forall b | 0 <= b < BUCKETS ensures Shape(mids, map[], b) == Bucket(mids, b, ENTRIES) {}
  }

  lemma GrownAllEnd(ix: Index, mids: Table, base: Table, tail: map<nat, nat>)
    requires Grown(ix, mids, base, tail)
    ensures AllEnd(ix)
  {
    forall b | 0 <= b < BUCKETS ensures Ends(ix.links, ix.heads[b]) {
      assert Walk(ix.links, ix.heads[b], Shape(base, tail, b), Null);
    }
  }

  /** Sharing tails does no harm to lookups while `Grown` holds. */
  lemma GrownLookup(ix: Index, mids: Table, base: Table, tail: map<nat, nat>, id: MsgId)
    requires Grown(ix, mids, base, tail)
    ensures SearchEnds(ix, mids, id) && Find(ix, mids, id) == Scan(mids, id)
  {
    var p, k := Shape(base, tail, Hash(id)), FirstHit(mids, base, tail, id);
    assert Walk(ix.links, ix.heads[Hash(id)], p, Null);
    if Hash(id) in tail {
      ChainNoDuplicates(ix.links, ix.heads[Hash(id)], p);
    }
    FirstHitIs(mids, base, tail, id);
    FindOnChain(ix, mids, id, p, k);
  }

  /** Where on its bucket's list an ID is met first. */
  ghost function FirstHit(mids: Table, base: Table, tail: map<nat, nat>, id: MsgId): nat
    requires TailsInRange(base, tail)
  {
    var own, r := Bucket(base, Hash(id), ENTRIES), Scan(mids, id);
    if r == -1 then |Shape(base, tail, Hash(id))|
    else if exists k: nat :: k < |own| && own[k] == r then
      var k: nat :| k < |own| && own[k] == r; k
    else |own|
  }

  lemma FirstHitIs(mids: Table, base: Table, tail: map<nat, nat>, id: MsgId)
    requires TailsInRange(base, tail) && GrownTable(mids, base, tail)
    requires Hash(id) in tail ==> NoDuplicates(Shape(base, tail, Hash(id)))
    ensures var p, k, r := Shape(base, tail, Hash(id)), FirstHit(mids, base, tail, id), Scan(mids, id);
            && k <= |p|
            && (forall j | 0 <= j < k :: p[j] < ENTRIES && mids[p[j]] != id)
            && (k < |p| <==> r != -1)
            && (k < |p| ==> p[k] == r)
  {
    var b, r := Hash(id), Scan(mids, id);
    var own, p, k := Bucket(base, b, ENTRIES), Shape(base, tail, b), FirstHit(mids, base, tail, id);
    BucketIs(base, b, ENTRIES);
    BucketIs(base, 0, ENTRIES);
    forall j | 0 <= j < |p| ensures p[j] < ENTRIES {
      if j < |own| {
        assert p[j] in own;
      } else {
        assert p[j] in ZeroBucket(base);
      }
    }
    if r != -1 && exists l: nat :: l < |own| && own[l] == r {
      assert forall j | 0 <= j < k :: p[j] == own[j] < r;
    } else if r != -1 {
      assert r !in own;
      assert base[r] != id;
      var c :| c in tail && r == Taken(base, tail, c);
      assert TakenFor(mids, base, Taken(base, tail, c), c);
      assert p[k] == r;
    }
  }

  lemma GrownLookupIsScan(ix: Index, mids: Table, base: Table, tail: map<nat, nat>)
    requires Grown(ix, mids, base, tail)
    ensures LookupIsScan(ix, mids)
  {
    forall id: MsgId ensures SearchEnds(ix, mids, id) && Find(ix, mids, id) == Scan(mids, id) {
      GrownLookup(ix, mids, base, tail, id);
    }
  }

  /** A freshly built index has only lists that end, and agrees with the linear scan. */
  lemma FreshIndexCorrect(mids: Table)
    ensures AllEnd(Build(mids)) && LookupIsScan(Build(mids), mids)
    ensures forall b | 0 <= b < BUCKETS ::
              Walk(Build(mids).links, Build(mids).heads[b], Bucket(mids, b, ENTRIES), Null)
  {
    BuildIsGrown(mids);
    GrownAllEnd(Build(mids), mids, mids, map[]);
    GrownLookupIsScan(Build(mids), mids, mids, map[]);
  }

  /** With no filter table loaded the index is zeroed memory: no search touches the table. */
  lemma EmptyIndexFindsNothing(mids: Table, id: MsgId)
    ensures SearchStopsAt(Empty(), mids, id, [], Null)
    ensures SearchEnds(Empty(), mids, id) && Find(Empty(), mids, id) == -1
  {
    FindIs(Empty(), mids, id, [], Null);
  }

  // ----- One ADD MID

  /** The free entry that ADD MID picks lies in bucket 0, after every entry taken before. */
  lemma FreeSlot(mids: Table, base: Table, tail: map<nat, nat>) returns (k: nat)
    requires TailsInRange(base, tail) && GrownTable(mids, base, tail)
    requires Scan(mids, INVALID_MSG_ID) != -1
    ensures k < |ZeroBucket(base)| && ZeroBucket(base)[k] == Scan(mids, INVALID_MSG_ID)
    ensures base[ZeroBucket(base)[k]] == INVALID_MSG_ID
    ensures forall b | b in tail :: tail[b] < k
    ensures FreeOnlyFrom(mids, ZeroBucket(base), k)
  {
    var s, zero := Scan(mids, INVALID_MSG_ID), ZeroBucket(base);
    BucketIs(base, 0, ENTRIES);
    forall b | b in tail ensures Taken(base, tail, b) != s {
      assert TakenFor(mids, base, Taken(base, tail, b), b);
      assert FreeOnlyFrom(mids, zero, tail[b] + 1);
    }
    assert base[s] == INVALID_MSG_ID;
    k :| 0 <= k < |zero| && zero[k] == s;
    assert forall j | 0 <= j < |zero| :: zero[j] in zero;
    forall b | b in tail ensures tail[b] < k {
      assert FreeOnlyFrom(mids, zero, tail[b] + 1);
    }
  }

  ghost predicate AddAccepted(ix: Index, mids: Table, id: MsgId) {
    && id != INVALID_MSG_ID
    && SearchEnds(ix, mids, id) && Find(ix, mids, id) == -1
    && SearchEnds(ix, mids, INVALID_MSG_ID) && 0 <= Find(ix, mids, INVALID_MSG_ID) < ENTRIES
    && WellFormed(ix) && Ends(ix.links, ix.heads[Hash(id)])
  }

  /** A good add: a bucket other than 0 that has received no add since the last build. */
  lemma GoodAdd(ix: Index, mids: Table, base: Table, tail: map<nat, nat>, id: MsgId) returns (k: nat)
    requires Grown(ix, mids, base, tail) && AddAccepted(ix, mids, id)
    requires Hash(id) != 0 && Hash(id) !in tail
    ensures var s := Find(ix, mids, INVALID_MSG_ID);
            Grown(Add(ix, id, s), mids[s := id], base, tail[Hash(id) := k])
  {
    var s := Find(ix, mids, INVALID_MSG_ID);
    GrownLookup(ix, mids, base, tail, INVALID_MSG_ID);
    GrownLookup(ix, mids, base, tail, id);
    k := FreeSlot(mids, base, tail);
    GoodAddTable(mids, base, tail, id, s, k);
    GoodAddWalks(ix, mids, base, tail, id, s, k);
    AddPointers(ix, id, s);
  }

  lemma GoodAddWalks(ix: Index, mids: Table, base: Table, tail: map<nat, nat>, id: MsgId, s: nat, k: nat)
    requires Grown(ix, mids, base, tail) && Hash(id) != 0 && Hash(id) !in tail
    requires k < |ZeroBucket(base)| && ZeroBucket(base)[k] == s
    ensures s < ENTRIES && Ends(ix.links, ix.heads[Hash(id)])
    ensures forall b | 0 <= b < BUCKETS ::
              Walk(Add(ix, id, s).links, Add(ix, id, s).heads[b], Shape(base, tail[Hash(id) := k], b), Null)
  {
    var h, zero, own, tail' := Hash(id), ZeroBucket(base), Bucket(base, Hash(id), ENTRIES), tail[Hash(id) := k];
    assert Walk(ix.links, ix.heads[0], Shape(base, tail, 0), Null) && Shape(base, tail, 0) == zero;
    WalkSplit(ix.links, ix.heads[0], zero, Null, k);
    assert Walk(ix.links, ix.heads[h], Shape(base, tail, h), Null) && Shape(base, tail, h) == own;
    BucketsDisjoint(base, h, 0, ENTRIES);
    AppendJoins(ix, id, s, own, zero[k..]);
    forall b | 0 <= b < BUCKETS
      ensures Walk(Add(ix, id, s).links, Add(ix, id, s).heads[b], Shape(base, tail', b), Null)
    {
      if b != h {
        assert Walk(ix.links, ix.heads[b], Shape(base, tail, b), Null);
        assert Shape(base, tail', b) == Shape(base, tail, b);
        OthersAvoid(base, tail, h, b);
        AppendKeepsOthers(ix, id, s, own, b, Shape(base, tail, b));
      }
    }
  }

  /** No other bucket's list contains the last link of a bucket that borrowed nothing. */
  lemma OthersAvoid(base: Table, tail: map<nat, nat>, h: nat, b: nat)
    requires TailsInRange(base, tail) && b != h && 0 < h
    ensures var own := Bucket(base, h, ENTRIES); own != [] ==> Last(own) !in Shape(base, tail, b)
  {
    BucketsDisjoint(base, h, b, ENTRIES);
    BucketsDisjoint(base, h, 0, ENTRIES);
  }

  lemma GoodAddTable(mids: Table, base: Table, tail: map<nat, nat>, id: MsgId, s: nat, k: nat)
    requires TailsInRange(base, tail) && GrownTable(mids, base, tail)
    requires id != INVALID_MSG_ID && id !in mids && Hash(id) != 0 && Hash(id) !in tail
    requires k < |ZeroBucket(base)| && ZeroBucket(base)[k] == s && s < ENTRIES && base[s] == INVALID_MSG_ID
    requires mids[s] == INVALID_MSG_ID
    requires forall b | b in tail :: tail[b] < k
    requires FreeOnlyFrom(mids, ZeroBucket(base), k)
    ensures TailsInRange(base, tail[Hash(id) := k]) && GrownTable(mids[s := id], base, tail[Hash(id) := k])
  {
    hide Bucket;
    var mids', tail' := mids[s := id], tail[Hash(id) := k];
    assert Taken(base, tail', Hash(id)) == s;
    forall b | b in tail' ensures TakenFor(mids', base, Taken(base, tail', b), b) {
      if b != Hash(id) {
        TakenStays(mids, base, tail, b, id, s, k);
        assert Taken(base, tail', b) == Taken(base, tail, b);
      }
    }
    forall i | 0 <= i < ENTRIES ensures mids'[i] == base[i] || exists b :: b in tail' && i == Taken(base, tail', b) {
      if i != s && mids[i] != base[i] {
        var b :| b in tail && i == Taken(base, tail, b);
        assert b in tail' && i == Taken(base, tail', b);
      }
    }
    forall b | b in tail' ensures FreeOnlyFrom(mids', ZeroBucket(base), tail'[b] + 1) {
      OneTaken(mids, ZeroBucket(base), id, s, k, tail'[b] + 1);
    }
  }

  /** Once the first free entry of the list is taken, the free ones start behind it. */
  lemma OneTaken(mids: Table, zero: seq<nat>, id: MsgId, s: nat, k: nat, n: nat)
    requires FreeOnlyFrom(mids, zero, k) && k < |zero| && zero[k] == s && s < ENTRIES && id != INVALID_MSG_ID
    requires n <= k + 1
    ensures FreeOnlyFrom(mids[s := id], zero, n)
  {
  }

  lemma TakenStays(mids: Table, base: Table, tail: map<nat, nat>, b: nat, id: MsgId, s: nat, k: nat)
    requires TailsInRange(base, tail) && b in tail && TakenFor(mids, base, Taken(base, tail, b), b)
    requires k < |ZeroBucket(base)| && ZeroBucket(base)[k] == s && s < ENTRIES && tail[b] < k && id !in mids
    ensures TakenFor(mids[s := id], base, Taken(base, tail, b), b)
  {
    BucketIs(base, 0, ENTRIES);
    var t := Taken(base, tail, b);
    assert t in ZeroBucket(base) && t < s && mids[t] in mids;
  }

  /** A bad add closes a cycle in its bucket, always. */
  lemma BadAdd(ix: Index, mids: Table, base: Table, tail: map<nat, nat>, id: MsgId)
    requires Grown(ix, mids, base, tail) && AddAccepted(ix, mids, id)
    requires Hash(id) == 0 || Hash(id) in tail
    ensures !Ends(Add(ix, id, Find(ix, mids, INVALID_MSG_ID)).links,
                  Add(ix, id, Find(ix, mids, INVALID_MSG_ID)).heads[Hash(id)])
  {
    var h, s, zero := Hash(id), Find(ix, mids, INVALID_MSG_ID), ZeroBucket(base);
    GrownLookup(ix, mids, base, tail, INVALID_MSG_ID);
    var k := FreeSlot(mids, base, tail);
    var p := Shape(base, tail, h);
    assert Walk(ix.links, ix.heads[h], p, Null);
    ChainUnique(ix.links, ix.heads[h], p, Chain(ix.links, ix.heads[h]));
    if h == 0 {
      assert p[k] == s;
    } else {
      assert p[|Bucket(base, h, ENTRIES)| + (k - tail[h])] == s;
    }
    AppendReachableCycles(ix, id, s);
  }
}
