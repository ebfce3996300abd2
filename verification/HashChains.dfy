/** Linked lists threaded through a fixed array of links, as DS keeps them in
    `HashLinks` and `HashTable`, with the append step of `DS_TableAddMsgID`.
    Nothing here assumes that a list ends: whether it does is the question. */
module HashChains {
  const ENTRIES: nat := 256 // DS_PACKETS_IN_FILTER_TABLE, one link per table entry
  const BUCKETS: nat := 256 // DS_HASH_TABLE_ENTRIES

  type MsgId = id: nat | id < 0x1_0000_0000

  const INVALID_MSG_ID: MsgId := 0

  /** A link pointer: NULL or the number of a link. */
  datatype Ref = Null | To(at: nat)

  datatype Link = Link(mid: MsgId, index: nat, next: Ref)

  datatype Index = Index(links: seq<Link>, heads: seq<Ref>)

  function Hash(id: MsgId): nat {
    id % BUCKETS
  }

  ghost predicate InRange(r: Ref) {
    r.To? ==> r.at < ENTRIES
  }

  ghost predicate WellFormed(ix: Index) {
    && |ix.links| == ENTRIES
    && |ix.heads| == BUCKETS
    && (forall i | 0 <= i < ENTRIES :: InRange(ix.links[i].next))
    && (forall b | 0 <= b < BUCKETS :: InRange(ix.heads[b]))
  }

  /** Following `next` from `a` visits exactly `p`, in this order, and arrives at `z`. */
  ghost predicate Walk(links: seq<Link>, a: Ref, p: seq<nat>, z: Ref)
    decreases |p|
  {
    if p == [] then a == z
    else a == To(p[0]) && p[0] < |links| && Walk(links, links[p[0]].next, p[1..], z)
  }

  /** The list that starts at `a` ends. */
  ghost predicate Ends(links: seq<Link>, a: Ref) {
    exists p :: Walk(links, a, p, Null)
  }

  ghost function Chain(links: seq<Link>, a: Ref): (p: seq<nat>)
    requires Ends(links, a)
    ensures Walk(links, a, p, Null)
  {
    var p :| Walk(links, a, p, Null); p
  }

  function Last<T>(p: seq<T>): T
    requires p != []
  {
    p[|p| - 1]
  }

  ghost predicate NoDuplicates<T>(p: seq<T>) {
    forall i, j | 0 <= i < j < |p| :: p[i] != p[j]
  }

  // ----- Walks

  lemma {:induction false} WalkConcat(links: seq<Link>, a: Ref, p: seq<nat>, m: Ref, q: seq<nat>, z: Ref)
    requires Walk(links, a, p, m) && Walk(links, m, q, z)
    ensures Walk(links, a, p + q, z)
    decreases |p|
  {
    if p == [] {
      assert p + q == q;
    } else {
      WalkConcat(links, links[p[0]].next, p[1..], m, q, z);
      assert (p + q)[1..] == p[1..] + q;
    }
  }

  lemma {:induction false} WalkSplit(links: seq<Link>, a: Ref, p: seq<nat>, z: Ref, k: nat)
    requires k <= |p| && Walk(links, a, p, z)
    ensures Walk(links, a, p[..k], if k < |p| then To(p[k]) else z)
    ensures Walk(links, if k < |p| then To(p[k]) else z, p[k..], z)
    ensures forall i | 0 <= i < |p| :: p[i] < |links|
    decreases |p|
  {
    if p == [] {
    } else if k == 0 {
      WalkSplit(links, links[p[0]].next, p[1..], z, 0);
      assert p[0..] == p;
      assert forall i | 1 <= i < |p| :: p[i] == p[1..][i - 1];
    } else {
      WalkSplit(links, links[p[0]].next, p[1..], z, k - 1);
      assert p[..k][1..] == p[1..][..k - 1];
      assert p[k..] == p[1..][k - 1..];
      assert forall i | 1 <= i < |p| :: p[i] == p[1..][i - 1];
    }
  }

  /** A walk depends only on the `next` fields of the links it visits. */
  lemma {:induction false} WalkFrame(links: seq<Link>, links': seq<Link>, a: Ref, p: seq<nat>, z: Ref)
    requires Walk(links, a, p, z) && |links'| == |links|
    requires forall i | i in p && i < |links| :: links'[i].next == links[i].next
    ensures Walk(links', a, p, z)
    decreases |p|
  {
    if p != [] {
      assert p[0] in p && forall i | i in p[1..] :: i in p;
      WalkFrame(links, links', links[p[0]].next, p[1..], z);
    }
  }

  /** Whatever is walked before NULL is a prefix of the whole list. */
  lemma {:induction false} WalkIsPrefix(links: seq<Link>, a: Ref, p: seq<nat>, m: Ref, r: seq<nat>)
    requires Walk(links, a, p, m) && Walk(links, a, r, Null)
    ensures p <= r && Walk(links, m, r[|p|..], Null)
    decreases |p|
  {
    if p != [] {
      WalkIsPrefix(links, links[p[0]].next, p[1..], m, r[1..]);
      assert r[1..][|p| - 1..] == r[|p|..];
      assert p == [p[0]] + p[1..] && r == [r[0]] + r[1..];
    }
  }

  lemma ChainUnique(links: seq<Link>, a: Ref, p: seq<nat>, r: seq<nat>)
    requires Walk(links, a, p, Null) && Walk(links, a, r, Null)
    ensures p == r
  {
    WalkIsPrefix(links, a, p, Null, r);
    WalkIsPrefix(links, a, r, Null, p);
  }

  lemma ChainNoDuplicates(links: seq<Link>, a: Ref, p: seq<nat>)
    requires Walk(links, a, p, Null)
    ensures NoDuplicates(p)
  {
    forall i, j | 0 <= i < j < |p| ensures p[i] != p[j] {
      WalkSplit(links, a, p, Null, i);
      WalkSplit(links, a, p, Null, j);
      if p[i] == p[j] {
        ChainUnique(links, To(p[i]), p[i..], p[j..]);
      }
    }
  }

  /** Only the last link of a list points to NULL. */
  lemma LastIsTheNullLink(links: seq<Link>, a: Ref, p: seq<nat>, k: nat)
    requires Walk(links, a, p, Null) && k < |p|
    ensures p[k] < |links| && (links[p[k]].next == Null <==> k == |p| - 1)
  {
    WalkSplit(links, a, p, Null, k);
    assert p[k..][1..] == p[k + 1..];
    if links[p[k]].next == Null {
      ChainUnique(links, Null, p[k + 1..], []);
    }
  }

  lemma CycleNeverEnds(links: seq<Link>, a: Ref, q: seq<nat>)
    requires Walk(links, a, q, a) && q != []
    ensures !Ends(links, a)
  {
    if Ends(links, a) {
      var r := Chain(links, a);
      WalkConcat(links, a, q, a, r, Null);
      ChainUnique(links, a, q + r, r);
    }
  }

  // ----- The append of DS_TableAddMsgID

  /** Fills in link `i` for `id`; its `next` field keeps whatever it held. */
  function Fill(ix: Index, id: MsgId, i: nat): Index
    requires i < |ix.links|
  {
    ix.(links := ix.links[i := Link(id, i, ix.links[i].next)])
  }

  /** `DS_TableAddMsgID`: defined only where its walk to the last link ends. */
  ghost function Add(ix: Index, id: MsgId, i: nat): Index
    requires WellFormed(ix) && i < ENTRIES && Ends(ix.links, ix.heads[Hash(id)])
  {
    var h := Hash(id);
    var filled := Fill(ix, id, i);
    if ix.heads[h] == Null then
      filled.(heads := ix.heads[h := To(i)])
    else
      var p := Chain(ix.links, ix.heads[h]);
      WalkSplit(ix.links, ix.heads[h], p, Null, 0);
      var last := Last(p);
      filled.(links := filled.links[last := filled.links[last].(next := To(i))])
  }

  /** What an append does to the pointers: one NULL pointer is redirected to link `i`. */
  lemma AddPointers(ix: Index, id: MsgId, i: nat)
    requires WellFormed(ix) && i < ENTRIES && Ends(ix.links, ix.heads[Hash(id)])
    ensures WellFormed(Add(ix, id, i))
    ensures ix.heads[Hash(id)] == Null ==>
              && Add(ix, id, i).heads == ix.heads[Hash(id) := To(i)]
              && forall j | 0 <= j < ENTRIES :: Add(ix, id, i).links[j].next == ix.links[j].next
    ensures ix.heads[Hash(id)] != Null ==>
              var p := Chain(ix.links, ix.heads[Hash(id)]);
              && p != [] && Last(p) < ENTRIES && ix.links[Last(p)].next == Null
              && Add(ix, id, i).heads == ix.heads
              && Add(ix, id, i).links[Last(p)].next == To(i)
              && forall j | 0 <= j < ENTRIES && j != Last(p) :: Add(ix, id, i).links[j].next == ix.links[j].next
    ensures forall j | 0 <= j < ENTRIES ::
              var l, l' := ix.links[j], Add(ix, id, i).links[j];
              if j == i then l'.index == i && l'.mid == id else l'.index == l.index && l'.mid == l.mid
  {
    if ix.heads[Hash(id)] != Null {
      var p := Chain(ix.links, ix.heads[Hash(id)]);
      LastIsTheNullLink(ix.links, ix.heads[Hash(id)], p, |p| - 1);
    }
  }

  /** Appending link `i`, whose own list is `q`, when the bucket's last link is not on `q`. */
  lemma AppendJoins(ix: Index, id: MsgId, i: nat, p: seq<nat>, q: seq<nat>)
    requires WellFormed(ix) && i < ENTRIES
    requires Walk(ix.links, ix.heads[Hash(id)], p, Null) && Walk(ix.links, To(i), q, Null)
    requires p != [] ==> Last(p) !in q
    ensures Ends(ix.links, ix.heads[Hash(id)])
    ensures Walk(Add(ix, id, i).links, Add(ix, id, i).heads[Hash(id)], p + q, Null)
  {
    var h := Hash(id);
    ChainUnique(ix.links, ix.heads[h], p, Chain(ix.links, ix.heads[h]));
    AddPointers(ix, id, i);
    var ix' := Add(ix, id, i);
    WalkFrame(ix.links, ix'.links, To(i), q, Null);
    if p == [] {
      assert p + q == q;
    } else {
      AppendReachesNewLink(ix, id, i, p);
      WalkConcat(ix'.links, ix'.heads[h], p, To(i), q, Null);
    }
  }

  /** The list of another bucket is untouched unless it shares the appended-to last link. */
  lemma AppendKeepsOthers(ix: Index, id: MsgId, i: nat, p: seq<nat>, b: nat, r: seq<nat>)
    requires WellFormed(ix) && i < ENTRIES && b < BUCKETS && b != Hash(id)
    requires Walk(ix.links, ix.heads[Hash(id)], p, Null) && Walk(ix.links, ix.heads[b], r, Null)
    requires p != [] ==> Last(p) !in r
    ensures Ends(ix.links, ix.heads[Hash(id)])
    ensures Walk(Add(ix, id, i).links, Add(ix, id, i).heads[b], r, Null)
  {
    ChainUnique(ix.links, ix.heads[Hash(id)], p, Chain(ix.links, ix.heads[Hash(id)]));
    AddPointers(ix, id, i);
    WalkFrame(ix.links, Add(ix, id, i).links, ix.heads[b], r, Null);
  }

  lemma AppendReachesNewLink(ix: Index, id: MsgId, i: nat, p: seq<nat>)
    requires WellFormed(ix) && i < ENTRIES
    requires Walk(ix.links, ix.heads[Hash(id)], p, Null) && p != []
    ensures Ends(ix.links, ix.heads[Hash(id)])
    ensures Walk(Add(ix, id, i).links, Add(ix, id, i).heads[Hash(id)], p, To(i))
  {
    var h, n := Hash(id), |p| - 1;
    ChainUnique(ix.links, ix.heads[h], p, Chain(ix.links, ix.heads[h]));
    AddPointers(ix, id, i);
    var links' := Add(ix, id, i).links;
    ChainNoDuplicates(ix.links, ix.heads[h], p);
    WalkSplit(ix.links, ix.heads[h], p, Null, n);
    assert Last(p) !in p[..n];
    WalkFrame(ix.links, links', ix.heads[h], p[..n], To(p[n]));
    assert Walk(links', To(p[n]), [p[n]], To(i));
    WalkConcat(links', ix.heads[h], p[..n], To(p[n]), [p[n]], To(i));
    assert p[..n] + [p[n]] == p;
  }

  /** The exact condition for one append: the bucket's list still ends if and only if
      the bucket was empty or its last link is not the last link of the appended list. */
  lemma AppendEndsIff(ix: Index, id: MsgId, i: nat)
    requires WellFormed(ix) && i < ENTRIES
    requires Ends(ix.links, ix.heads[Hash(id)]) && Ends(ix.links, To(i))
    ensures Chain(ix.links, To(i)) != []
    ensures Ends(Add(ix, id, i).links, Add(ix, id, i).heads[Hash(id)]) <==>
            || ix.heads[Hash(id)] == Null
            || (&& Chain(ix.links, ix.heads[Hash(id)]) != []
                && Last(Chain(ix.links, ix.heads[Hash(id)])) != Last(Chain(ix.links, To(i))))
  {
    var h := Hash(id);
    var p, q := Chain(ix.links, ix.heads[h]), Chain(ix.links, To(i));
    if p != [] && Last(p) == Last(q) {
      AppendReachesNewLink(ix, id, i, p);
      AppendClosesCycle(ix, id, i, p, q);
      var ix' := Add(ix, id, i);
      if Ends(ix'.links, ix'.heads[h]) {
        var r := Chain(ix'.links, ix'.heads[h]);
        WalkIsPrefix(ix'.links, ix'.heads[h], p, To(i), r);
        assert Ends(ix'.links, To(i));
      }
    } else {
      if p != [] && Last(p) in q {
        var k :| 0 <= k < |q| && q[k] == Last(p);
        LastIsTheNullLink(ix.links, ix.heads[h], p, |p| - 1);
        LastIsTheNullLink(ix.links, To(i), q, k);
      }
      AppendJoins(ix, id, i, p, q);
    }
  }

  lemma AppendClosesCycle(ix: Index, id: MsgId, i: nat, p: seq<nat>, q: seq<nat>)
    requires WellFormed(ix) && i < ENTRIES
    requires Walk(ix.links, ix.heads[Hash(id)], p, Null) && Walk(ix.links, To(i), q, Null)
    requires p != [] && q != [] && Last(p) == Last(q)
    ensures Ends(ix.links, ix.heads[Hash(id)])
    ensures !Ends(Add(ix, id, i).links, To(i))
  {
    var h, n := Hash(id), |q| - 1;
    ChainUnique(ix.links, ix.heads[h], p, Chain(ix.links, ix.heads[h]));
    AddPointers(ix, id, i);
    var links' := Add(ix, id, i).links;
    ChainNoDuplicates(ix.links, To(i), q);
    WalkSplit(ix.links, To(i), q, Null, n);
    assert Last(p) !in q[..n];
    WalkFrame(ix.links, links', To(i), q[..n], To(q[n]));
    assert Walk(links', To(q[n]), [q[n]], To(i));
    WalkConcat(links', To(i), q[..n], To(q[n]), [q[n]], To(i));
    CycleNeverEnds(links', To(i), q[..n] + [q[n]]);
  }

  /** Appending a link that its bucket already reaches always closes a cycle. */
  lemma AppendReachableCycles(ix: Index, id: MsgId, i: nat)
    requires WellFormed(ix) && i < ENTRIES && Ends(ix.links, ix.heads[Hash(id)])
    requires i in Chain(ix.links, ix.heads[Hash(id)])
    ensures !Ends(Add(ix, id, i).links, Add(ix, id, i).heads[Hash(id)])
  {
    var p := Chain(ix.links, ix.heads[Hash(id)]);
    var k :| 0 <= k < |p| && p[k] == i;
    WalkSplit(ix.links, ix.heads[Hash(id)], p, Null, k);
    ChainUnique(ix.links, To(i), p[k..], Chain(ix.links, To(i)));
    AppendEndsIff(ix, id, i);
  }

  /** No append ever repairs a list that does not end. */
  lemma EndlessStaysEndless(ix: Index, id: MsgId, i: nat, b: nat)
    requires WellFormed(ix) && i < ENTRIES && b < BUCKETS
    requires Ends(ix.links, ix.heads[Hash(id)])
    requires !Ends(ix.links, ix.heads[b])
    ensures !Ends(Add(ix, id, i).links, Add(ix, id, i).heads[b])
  {
    AddPointers(ix, id, i);
    var ix' := Add(ix, id, i);
    if Ends(ix'.links, ix'.heads[b]) {
      var r := Chain(ix'.links, ix'.heads[b]);
      if ix.heads[Hash(id)] == Null {
        WalkFrame(ix'.links, ix.links, ix.heads[b], r, Null);
      } else {
        var last := Last(Chain(ix.links, ix.heads[Hash(id)]));
        if last in r {
          var k :| 0 <= k < |r| && r[k] == last;
          ChainNoDuplicates(ix'.links, ix.heads[b], r);
          WalkSplit(ix'.links, ix.heads[b], r, Null, k);
          WalkFrame(ix'.links, ix.links, ix.heads[b], r[..k], To(last));
          assert Walk(ix.links, To(last), [last], Null);
          WalkConcat(ix.links, ix.heads[b], r[..k], To(last), [last], Null);
        } else {
          WalkFrame(ix'.links, ix.links, ix.heads[b], r, Null);
        }
      }
      assert Ends(ix.links, ix.heads[b]);
    }
  }
}
