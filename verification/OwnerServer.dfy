/**
 The node's own listing of an owner: pages of the stored tree by offset, until a page
 comes up short.
 Source: crates/chain/src/rpc.rs, owner_objects.
 */
module OwnerServer {
  import opened Wrappers
  import opened BitKeys
  import opened OwnerTree
  import opened OwnerStore
  import opened OwnerWorld
  import opened OwnerPages
  import opened OwnerProver
  import opened ObjectProofs
  import opened OwnerClient

  datatype ServeError = PageRefused | MissingObject

  ghost predicate Present(objects: Database, ks: seq<Key>) {
    forall i :: 0 <= i < |ks| ==> ks[i] in objects
  }

  ghost function Paired(objects: Database, ks: seq<Key>): seq<(Key, Object)>
    requires Present(objects, ks)
  {
    seq(|ks|, i requires 0 <= i < |ks| => (ks[i], objects[ks[i]]))
  }

  lemma {:induction false} PairedSplit(objects: Database, ks: seq<Key>, a: nat, b: nat)
    requires a <= b <= |ks| && Present(objects, ks[..a]) && Present(objects, ks[a..b])
    ensures Present(objects, ks[..b])
    ensures Paired(objects, ks[..b]) == Paired(objects, ks[..a]) + Paired(objects, ks[a..b])
  {
    assert ks[..b] == ks[..a] + ks[a..b];
  }

  lemma {:induction false} MissingInPage(objects: Database, ks: seq<Key>, a: nat, b: nat)
    requires a <= b <= |ks| && !Present(objects, ks[a..b])
    ensures !Present(objects, ks)
  {
    var i :| 0 <= i < b - a && ks[a..b][i] !in objects;
    assert ks[a + i] !in objects;
  }

  // The objects of one page.
  method PageObjects(hs: seq<HoldingProof>, objects: Database, ghost ks: seq<Key>)
    returns (r: Result<seq<(Key, Object)>, ServeError>)
    requires |hs| == |ks| && forall i :: 0 <= i < |hs| ==> hs[i].objectId == ks[i]
    ensures r.Ok? <==> Present(objects, ks)
    ensures r.Ok? ==> r.value == Paired(objects, ks)
  {
    var listed: seq<(Key, Object)> := [];
    for i := 0 to |hs|
      invariant Present(objects, ks[..i]) && listed == Paired(objects, ks[..i])
    {
      var id := hs[i].objectId;
      if id !in objects {
        return Err(MissingObject);
      }
      listed := listed + [(id, objects[id])];
    }
    assert ks[..|ks|] == ks;
    return Ok(listed);
  }

  // The loop always ends, a count that is a multiple of the page size included, and yields
  // every holding of the owner once, in key order, unless some holding has no object.
  method OwnerObjects(tree: MemoryOwnerTree, objects: Database, owner: Key, ghost w: World)
    returns (r: Result<seq<(Key, Object)>, ServeError>)
    requires Represents(tree.nodes, w)
    ensures r.Ok? <==> Present(objects, Listing(HeldBy(w, owner)))
    ensures r.Ok? ==> r.value == Paired(objects, Listing(HeldBy(w, owner)))
    ensures r.Err? ==> r == Err(MissingObject)
  {
    ghost var ks := Listing(HeldBy(w, owner));
    var listed: seq<(Key, Object)> := [];
    var offset: nat := 0;
    while true
      invariant offset <= |ks| && Present(objects, ks[..offset]) && listed == Paired(objects, ks[..offset])
      decreases |ks| - offset
    {
      var page := ProveOwnerPage(tree, owner, offset, OWNER_PAGE_LIMIT, w);
      if page.Err? {
        return Err(PageRefused);
      }
      var hs := page.value.holdings;
      ghost var end := PageEnd(HeldBy(w, owner), offset, OWNER_PAGE_LIMIT);
      var more := PageObjects(hs, objects, ks[offset..end]);
      if more.Err? {
        MissingInPage(objects, ks, offset, end);
        return Err(MissingObject);
      }
      PairedSplit(objects, ks, offset, end);
      listed := listed + more.value;
      if |hs| < OWNER_PAGE_LIMIT {
        assert ks[..end] == ks;
        return Ok(listed);
      }
      offset := offset + |hs|;
    }
  }

  // On a block whose tree is that of its objects no holding lacks its object.
  lemma {:induction false} ConsistentPresent(b: BlockState, owner: Key)
    requires Consistent(b)
    ensures Present(b.objects, Listing(HeldBy(b.world, owner)))
  {
    forall i | 0 <= i < |Listing(HeldBy(b.world, owner))| ensures Listing(HeldBy(b.world, owner))[i] in b.objects {
      HeldObject(b, owner, i);
    }
  }
}
