/** `HashLinks` and `HashTable` as the arrays DS updates in place, with the three
    functions of ds_table.c that work on them. */
module HashTable {
  import opened HashChains
  import opened HashIndex

  class LinkTable {
    const links: array<Link>
    const heads: array<Ref>

    ghost predicate Valid()
      reads links, heads
    {
      && links.Length == ENTRIES && heads.Length == BUCKETS
      && WellFormed(State())
      && forall i | 0 <= i < ENTRIES :: links[i].index < ENTRIES
    }

    ghost function State(): Index
      reads links, heads
    {
      Index(links[..], heads[..])
    }

    /** Zeroed memory, as after `memset` of the application data. */
    constructor ()
      ensures Valid() && fresh(links) && fresh(heads)
      ensures State() == Empty()
    {
      links := new Link[ENTRIES](_ => NO_LINK);
      heads := new Ref[BUCKETS](_ => Null);
      new;
      assert links[..] == Empty().links && heads[..] == Empty().heads;
    }

    /** `DS_TableAddMsgID`. The walk to the last link must end: in the C code it would otherwise spin forever. */
    method AddMsgID(id: MsgId, i: nat) returns (h: nat)
      requires Valid() && i < ENTRIES && Ends(State().links, State().heads[Hash(id)])
      modifies links, heads
      ensures Valid() && State() == old(Add(State(), id, i))
      ensures h == Hash(id)
    {
      ghost var before := State();
      AddPointers(before, id, i);
      links[i] := links[i].(index := i);
      links[i] := links[i].(mid := id);
      h := Hash(links[i].mid);
      ghost var filled := Fill(before, id, i);
      assert links[..] == filled.links;
      if heads[h] == Null {
        heads[h] := To(i);
        assert State() == Add(before, id, i);
      } else {
        ghost var p := Chain(before.links, before.heads[h]);
        var link := heads[h].at;
        ghost var k := 0;
        while links[link].next != Null
          invariant link < ENTRIES && k < |p| && p[k] == link
          invariant State() == filled
          decreases |p| - k
        {
          LastIsTheNullLink(before.links, before.heads[h], p, k);
          WalkSplit(before.links, before.heads[h], p, Null, k);
          WalkSplit(before.links, before.heads[h], p, Null, k + 1);
          assert p[k..][1..] == p[k + 1..];
          assert before.links[link].next == links[link].next == To(p[k + 1]);
          link := links[link].next.at;
          k := k + 1;
        }
        LastIsTheNullLink(before.links, before.heads[h], p, k);
        links[link] := links[link].(next := To(i));
        assert State() == Add(before, id, i);
      }
    }

    /** `DS_TableFindMsgID`, for a search that ends. */
    method FindMsgID(mids: Table, id: MsgId) returns (r: int)
      requires Valid() && SearchEnds(State(), mids, id)
      ensures r == Find(State(), mids, id)
      ensures r == -1 || (0 <= r < ENTRIES && mids[r] == id)
    {
      ghost var ix := State();
      ghost var q, z :| SearchStopsAt(ix, mids, id, q, z);
      ghost var p := [];
      r := -1;
      var link := heads[Hash(id)];
      while link != Null
        invariant InRange(link) && r == -1
        invariant Walk(ix.links, ix.heads[Hash(id)], p, link)
        invariant forall k | 0 <= k < |p| :: !Hit(ix, mids, p[k], id)
        invariant |p| <= |q|
        decreases |q| - |p|
      {
        if mids[links[link.at].index] == id {
          r := links[link.at].index;
          break;
        }
        WalksAgree(ix.links, ix.heads[Hash(id)], p, link, q, z);
        assert Walk(ix.links, link, [link.at], ix.links[link.at].next);
        WalkConcat(ix.links, ix.heads[Hash(id)], p, link, [link.at], ix.links[link.at].next);
        p := p + [link.at];
        link := links[link.at].next;
      }
      FindIs(ix, mids, id, p, link);
    }

    /** `memset` of both arrays. */
    method Clear()
      requires Valid()
      modifies links, heads
      ensures Valid() && State() == Empty()
    {
      forall i | 0 <= i < ENTRIES {
        links[i] := NO_LINK;
      }
      forall b | 0 <= b < BUCKETS {
        heads[b] := Null;
      }
      assert links[..] == Empty().links && heads[..] == Empty().heads;
    }

    /** `DS_TableCreateHash`. */
    method CreateHash(mids: Table)
      requires Valid()
      modifies links, heads
      ensures Valid() && State() == Build(mids)
    {
      Clear();
      for i := 0 to ENTRIES
        invariant Valid() && State() == BuildTo(mids, i)
      {
        BuiltStep(State(), mids, i);
        var _ := AddMsgID(mids[i], i);
      }
    }
  }
}
