/**
 Writing objects together with the owner tree: every object write files the object under
 the keys that hold it, so a block's owner tree is always the tree of its objects.
 Source: crates/chain/src/execution/owner_tree.rs, with coin_holdings and edge_keys of
 crates/chain/src/owner_index.rs.
 */
module OwnedWrites {
  import opened Wrappers
  import opened BitKeys
  import opened OwnerTree
  import OwnerPath
  import opened OwnerStore
  import opened OwnerWorld
  import opened ObjectProofs
  import opened OwnerClient

  // ---------- What an object is filed under ----------

  // A coin is its owner's value, and a holding without balance of the other key it is
  // delegated to; an edge is a holding of every key it commits, once each.
  function Ownership(value: Option<Object>): map<Key, OwnerLeaf> {
    if value.None? then map[]
    else
      match value.value
      case Coin(owner, delegate, amount) =>
        var held := map[owner := Holding(HOLDING_COIN, amount)];
        if delegate.Some? && delegate.value != owner then held[delegate.value := Holding(HOLDING_DELEGATED, 0)]
        else held
      case Edge(_, _, parties) => map key | key in parties :: Holding(HOLDING_EDGE, 0)
      case RegistryChunk(_) => map[]
      case OwnerData(_) => map[]
  }

  ghost function Filing(value: Option<Object>, key: Key): Option<OwnerLeaf> {
    if value.Some? then HoldingOf(value.value, key) else None
  }

  lemma {:induction false} OwnershipExact(value: Option<Object>, key: Key)
    ensures Lookup(Ownership(value), key) == Filing(value, key)
  {
  }

  lemma {:induction false} OtherKey(key: Key) returns (other: Key)
    ensures other != key
  {
    other := key[0 := !key[0]];
    assert other[0] != key[0];
  }

  // A holdings leaf is committed exactly when some object gives the owner that very holding:
  // a coin's value, a delegated coin or an edge without balance, and no other kind.
  lemma {:induction false} LeafExact(owner: Key, id: Key, leaf: OwnerLeaf)
    ensures LeafCommit(HoldingsOf(owner), id, Some(leaf)).Ok? <==> exists o: Object :: HoldingOf(o, owner) == Some(leaf)
  {
    if LeafCommit(HoldingsOf(owner), id, Some(leaf)).Ok? {
      if leaf.kind == HOLDING_COIN {
        assert HoldingOf(Coin(owner, None, leaf.balance), owner) == Some(leaf);
      } else if leaf.kind == HOLDING_EDGE {
        assert HoldingOf(Edge(owner, owner, {owner}), owner) == Some(leaf);
      } else {
        var other := OtherKey(owner);
        assert HoldingOf(Coin(other, Some(owner), 0), owner) == Some(leaf);
      }
    }
  }

  lemma {:induction false} UnknownKindRefused(owner: Key, id: Key, kind: nat, balance: nat)
    requires kind > 2
    ensures LeafCommit(HoldingsOf(owner), id, Some(Holding(kind, balance))) == Err(Invalid)
  {
  }

  // A summary is committed exactly in the owners' tree and for an owner that holds something.
  lemma {:induction false} SummaryExact(scope: Scope, key: Key, root: Commitment)
    ensures LeafCommit(scope, key, Some(Summary(root))).Ok? <==> scope == Owners && root.count > 0
    ensures forall kind, balance :: LeafCommit(Owners, key, Some(Holding(kind, balance))) == Err(Invalid)
  {
  }

  // ---------- The world of a database ----------

  ghost function Holders(objects: Database): set<Key> {
    set id, key | id in objects && key in Ownership(Some(objects[id])) :: key
  }

  ghost function FiledUnder(objects: Database, owner: Key): Entries {
    map id | id in objects && HoldingOf(objects[id], owner).Some? :: HoldingOf(objects[id], owner).value
  }

  ghost function WorldOf(objects: Database): World {
    map owner | owner in Holders(objects) :: FiledUnder(objects, owner)
  }

  lemma {:induction false} HeldInWorld(objects: Database, owner: Key)
    ensures HeldBy(WorldOf(objects), owner) == FiledUnder(objects, owner)
    ensures owner in WorldOf(objects) ==> FiledUnder(objects, owner) != map[]
  {
    if owner in Holders(objects) {
      var id :| id in objects && owner in Ownership(Some(objects[id]));
      OwnershipExact(Some(objects[id]), owner);
      assert id in FiledUnder(objects, owner);
    } else {
      forall id | id in objects ensures id !in FiledUnder(objects, owner) {
        OwnershipExact(Some(objects[id]), owner);
      }
    }
  }

  lemma {:induction false} FiledValid(objects: Database, owner: Key)
    ensures OwnerPath.ValidEntries(HoldingsOf(owner), FiledUnder(objects, owner))
  {
    var m := FiledUnder(objects, owner);
    forall id | id in m ensures ValidLeaf(HoldingsOf(owner), m[id]) {
      LeafExact(owner, id, m[id]);
    }
  }

  lemma {:induction false} Looked(b: BlockState, owner: Key, id: Key)
    requires Consistent(b)
    ensures Lookup(HeldBy(b.world, owner), id) == Filing(Lookup(b.objects, id), owner)
  {
  }

  // Every database has exactly one owner tree that is the tree of its objects.
  lemma {:induction false} ConsistentExact(objects: Database, w: World)
    ensures Consistent(BlockState(w, objects)) <==> w == WorldOf(objects)
  {
    var full := WorldOf(objects);
    forall owner | owner in full
      ensures full[owner] != map[] && OwnerPath.ValidEntries(HoldingsOf(owner), full[owner])
    {
      HeldInWorld(objects, owner);
      FiledValid(objects, owner);
    }
    forall owner: Key, id: Key
      ensures Lookup(HeldBy(full, owner), id) == if id in objects then HoldingOf(objects[id], owner) else None
    {
      HeldInWorld(objects, owner);
    }
    if Consistent(BlockState(w, objects)) {
      forall owner: Key, id: Key ensures Lookup(HeldBy(w, owner), id) == Lookup(HeldBy(full, owner), id) {
        Looked(BlockState(w, objects), owner, id);
      }
      WorldExtensional(w, full);
    }
  }

  // ---------- Fewer holdings fit whenever more do ----------

  ghost predicate Under(a: Entries, b: Entries) {
    forall k :: k in a ==> k in b && LeafBalance(a[k]) <= LeafBalance(b[k])
  }

  lemma {:induction false} NodeMonotone(scope: Scope, a: Entries, b: Entries, p: Prefix)
    requires Under(a, b)
    ensures Node(scope, a, p).count <= Node(scope, b, p).count
    ensures Node(scope, a, p).balance <= Node(scope, b, p).balance
    decreases DEPTH - |p|
  {
    if |p| < DEPTH {
      NodeMonotone(scope, a, b, p + [false]);
      NodeMonotone(scope, a, b, p + [true]);
    }
  }

  ghost predicate Within(a: World, b: World) {
    forall owner: Key :: Under(HeldBy(a, owner), HeldBy(b, owner))
  }

  lemma {:induction false} SummariesMonotone(a: World, b: World)
    requires ValidWorld(a) && Within(a, b)
    ensures Under(Summaries(a), Summaries(b))
  {
    forall o | o in a ensures o in b && Root(HoldingsOf(o), a[o]).balance <= Root(HoldingsOf(o), b[o]).balance {
      assert Under(HeldBy(a, o), HeldBy(b, o));
      var k :| k in a[o];
      assert k in HeldBy(b, o);
      NodeMonotone(HoldingsOf(o), a[o], b[o], []);
    }
  }

  lemma {:induction false} WithinFits(a: World, b: World)
    requires ValidWorld(a) && Within(a, b) && FitsWorld(b)
    ensures FitsWorld(a)
  {
    SummariesMonotone(a, b);
    NodeMonotone(Owners, Summaries(a), Summaries(b), []);
    forall o | o in a ensures Fits(Root(HoldingsOf(o), a[o])) {
      assert Under(HeldBy(a, o), HeldBy(b, o));
      assert o in Summaries(a) && o in b;
      NodeMonotone(HoldingsOf(o), a[o], b[o], []);
    }
  }

  // ---------- Moving one object's filings ----------

  // The world with one object's filings replaced, so far under the keys of `done`.
  ghost predicate Moved(w: World, base: World, id: Key, value: Option<Object>, done: set<Key>) {
    forall owner: Key, k: Key ::
      Lookup(HeldBy(w, owner), k) ==
        if k == id && owner in done then Filing(value, owner) else Lookup(HeldBy(base, owner), k)
  }

  lemma {:induction false} MovedMore(w: World, base: World, id: Key, value: Option<Object>, done: set<Key>, key: Key)
    requires Moved(w, base, id, value, done)
    ensures Moved(SetHolding(w, HoldingUpdate(key, id, Filing(value, key))), base, id, value, done + {key})
  {
    var u := HoldingUpdate(key, id, Filing(value, key));
    var after := SetHolding(w, u);
    SummariesAfter(w, u);
    forall owner: Key, k: Key
      ensures Lookup(HeldBy(after, owner), k) ==
                if k == id && owner in done + {key} then Filing(value, owner) else Lookup(HeldBy(base, owner), k)
    {
      assert Lookup(HeldBy(w, owner), k) ==
        if k == id && owner in done then Filing(value, owner) else Lookup(HeldBy(base, owner), k);
    }
  }

  lemma {:induction false} FilingValid(w: World, id: Key, value: Option<Object>, key: Key)
    requires ValidWorld(w)
    ensures Filing(value, key).Some? ==> ValidLeaf(HoldingsOf(key), Filing(value, key).value)
    ensures ValidWorld(SetHolding(w, HoldingUpdate(key, id, Filing(value, key))))
  {
    if Filing(value, key).Some? {
      LeafExact(key, id, Filing(value, key).value);
      assert HoldingOf(value.value, key) == Some(Filing(value, key).value);
    }
    SetHoldingValid(w, HoldingUpdate(key, id, Filing(value, key)));
  }

  // A step towards a world that fits is admitted.
  lemma {:induction false} StepAdmitted(w: World, id: Key, value: Option<Object>, key: Key, bound: World)
    requires ValidWorld(w) && FitsWorld(bound)
    requires Within(SetHolding(w, HoldingUpdate(key, id, Filing(value, key))), bound)
    ensures Admissible(w, HoldingUpdate(key, id, Filing(value, key)))
  {
    var after := SetHolding(w, HoldingUpdate(key, id, Filing(value, key)));
    FilingValid(w, id, value, key);
    WithinFits(after, bound);
    HeldSound(after, key);
  }

  // Whatever a world under way holds is held in `bound` too.
  ghost predicate Dominates(bound: World, base: World, id: Key, value: Option<Object>, keys: set<Key>) {
    forall owner: Key ::
      && (forall k: Key :: k in HeldBy(base, owner) ==>
            Lookup(HeldBy(bound, owner), k) == Lookup(HeldBy(base, owner), k))
      && (owner in keys && Filing(value, owner).Some? ==>
            Lookup(HeldBy(bound, owner), id) == Filing(value, owner))
  }

  lemma {:induction false} MovedWithin(
    w: World, bound: World, base: World, id: Key, value: Option<Object>, done: set<Key>, keys: set<Key>)
    requires Moved(w, base, id, value, done) && done <= keys && Dominates(bound, base, id, value, keys)
    ensures Within(w, bound)
  {
    forall owner: Key, k: Key | k in HeldBy(w, owner)
      ensures k in HeldBy(bound, owner) && HeldBy(w, owner)[k] == HeldBy(bound, owner)[k]
    {
      assert Lookup(HeldBy(w, owner), k) ==
        if k == id && owner in done then Filing(value, owner) else Lookup(HeldBy(base, owner), k);
    }
    forall owner: Key ensures Under(HeldBy(w, owner), HeldBy(bound, owner)) {}
  }

  // Files one object, or its absence, under the given keys. It can fail only where the whole
  // move leads to totals that do not fit.
  method FileUnder(tree: MemoryOwnerTree, id: Key, keys: set<Key>, value: Option<Object>,
                   ghost base: World, ghost bound: World)
    returns (r: Result<(), OwnerProofError>, ghost w: World)
    requires Represents(tree.nodes, base) && Dominates(bound, base, id, value, keys)
    modifies tree
    ensures r.Err? ==> !FitsWorld(bound)
    ensures r.Ok? ==> Represents(tree.nodes, w) && Moved(w, base, id, value, keys)
  {
    var left := keys;
    w := base;
    while left != {}
      invariant left <= keys
      invariant Represents(tree.nodes, w) && Moved(w, base, id, value, keys - left)
      decreases left
    {
      var key :| key in left;
      var u := HoldingUpdate(key, id, Lookup(Ownership(value), key));
      OwnershipExact(value, key);
      MovedMore(w, base, id, value, keys - left, key);
      assert keys - left + {key} == keys - (left - {key});
      MovedWithin(SetHolding(w, u), bound, base, id, value, keys - (left - {key}), keys);
      var step := UpdateHolding(tree, u, w);
      if step.Err? {
        if FitsWorld(bound) {
          StepAdmitted(w, id, value, key, bound);
        }
        return Err(step.error), w;
      }
      w := SetHolding(w, u);
      left := left - {key};
    }
    assert keys - left == keys;
    return Ok(()), w;
  }

  // ---------- One write ----------

  datatype WriteError = NamespaceCollision | Tree(error: OwnerProofError)

  function PutObject(objects: Database, id: Key, value: Option<Object>): Database {
    if value.Some? then objects[id := value.value] else objects - {id}
  }

  ghost predicate FiledOnly(keys: set<Key>, value: Option<Object>) {
    forall key: Key :: key !in keys ==> Filing(value, key).None?
  }

  lemma {:induction false} MovedAt(
    w: World, before: Database, after: Database, id: Key, keys: set<Key>, value: Option<Object>, owner: Key, k: Key)
    requires Moved(w, WorldOf(before), id, value, keys) && after == PutObject(before, id, value)
    requires FiledOnly(keys, value) && FiledOnly(keys, Lookup(before, id))
    ensures Lookup(HeldBy(w, owner), k) == Filing(Lookup(after, k), owner)
  {
    ConsistentExact(before, WorldOf(before));
    Looked(BlockState(WorldOf(before), before), owner, k);
    assert Lookup(HeldBy(w, owner), k) ==
      if k == id && owner in keys then Filing(value, owner) else Lookup(HeldBy(WorldOf(before), owner), k);
  }

  // Replacing an object's filings under all its keys leads from the tree of one database to
  // the tree of the other.
  lemma {:induction false} MovedAll(
    w: World, before: Database, after: Database, id: Key, keys: set<Key>, value: Option<Object>)
    requires Moved(w, WorldOf(before), id, value, keys) && ValidWorld(w)
    requires FiledOnly(keys, value) && FiledOnly(keys, Lookup(before, id))
    requires after == PutObject(before, id, value)
    ensures w == WorldOf(after)
  {
    forall owner: Key, k: Key
      ensures Lookup(HeldBy(w, owner), k) == if k in after then HoldingOf(after[k], owner) else None
    {
      MovedAt(w, before, after, id, keys, value, owner, k);
    }
    assert Consistent(BlockState(w, after));
    ConsistentExact(after, w);
  }

  lemma {:induction false} TargetDominates(before: Database, id: Key, value: Option<Object>, keys: set<Key>)
    requires id !in before
    ensures Dominates(WorldOf(PutObject(before, id, value)), WorldOf(before), id, value, keys)
  {
    var after := PutObject(before, id, value);
    ConsistentExact(before, WorldOf(before));
    ConsistentExact(after, WorldOf(after));
    forall owner: Key
      ensures forall k: Key :: k in HeldBy(WorldOf(before), owner) ==>
                Lookup(HeldBy(WorldOf(after), owner), k) == Lookup(HeldBy(WorldOf(before), owner), k)
      ensures owner in keys && Filing(value, owner).Some? ==>
                Lookup(HeldBy(WorldOf(after), owner), id) == Filing(value, owner)
    {
      forall k: Key | k in HeldBy(WorldOf(before), owner)
        ensures Lookup(HeldBy(WorldOf(after), owner), k) == Lookup(HeldBy(WorldOf(before), owner), k)
      {
        Looked(BlockState(WorldOf(before), before), owner, k);
        Looked(BlockState(WorldOf(after), after), owner, k);
      }
      Looked(BlockState(WorldOf(after), after), owner, id);
    }
  }

  // The first loop, which cannot fail: an object is taken from every key that holds it.
  method Unfile(tree: MemoryOwnerTree, objects: Database, id: Key) returns (r: Result<(), OwnerProofError>)
    requires Represents(tree.nodes, WorldOf(objects))
    modifies tree
    ensures r.Ok? && Represents(tree.nodes, WorldOf(objects - {id}))
  {
    var keys := Ownership(Lookup(objects, id)).Keys;
    OwnershipKeys(Lookup(objects, id));
    ghost var w;
    r, w := FileUnder(tree, id, keys, None, WorldOf(objects), WorldOf(objects));
    MovedAll(w, objects, objects - {id}, id, keys, None);
  }

  // The second loop, for an object that is nowhere filed.
  method File(tree: MemoryOwnerTree, ghost objects: Database, id: Key, value: Option<Object>)
    returns (r: Result<(), OwnerProofError>)
    requires id !in objects && Represents(tree.nodes, WorldOf(objects))
    modifies tree
    ensures r.Ok? <==> FitsWorld(WorldOf(PutObject(objects, id, value)))
    ensures r.Ok? ==> Represents(tree.nodes, WorldOf(PutObject(objects, id, value)))
  {
    var keys := Ownership(value).Keys;
    OwnershipKeys(value);
    TargetDominates(objects, id, value, keys);
    ghost var w;
    r, w := FileUnder(tree, id, keys, value, WorldOf(objects), WorldOf(PutObject(objects, id, value)));
    if r.Ok? {
      MovedAll(w, objects, PutObject(objects, id, value), id, keys, value);
    }
  }

  predicate Reserved(value: Option<Object>) {
    value.Some? && value.value.OwnerData?
  }

  // One object write. The tree of the old objects becomes the tree of the new ones, and this
  // fails exactly when an object of the tree's own namespace is involved or the new totals
  // do not fit.
  method WriteOwned(tree: MemoryOwnerTree, objects: Database, id: Key, value: Option<Object>)
    returns (r: Result<Database, WriteError>)
    requires Represents(tree.nodes, WorldOf(objects))
    modifies tree
    ensures r == Err(NamespaceCollision) <==> Reserved(Lookup(objects, id)) || Reserved(value)
    ensures r == Err(NamespaceCollision) ==> tree.nodes == old(tree.nodes)
    ensures r.Ok? <==> !Reserved(Lookup(objects, id)) && !Reserved(value)
                       && FitsWorld(WorldOf(PutObject(objects, id, value)))
    ensures r.Ok? ==> r.value == PutObject(objects, id, value) && Represents(tree.nodes, WorldOf(r.value))
  {
    if Reserved(Lookup(objects, id)) || Reserved(value) {
      return Err(NamespaceCollision);
    }
    var removed := Unfile(tree, objects, id);
    match removed {
      case Err(error) => return Err(Tree(error));
      case Ok(_) =>
    }
    assert PutObject(objects - {id}, id, value) == PutObject(objects, id, value);
    var added := File(tree, objects - {id}, id, value);
    if added.Err? {
      return Err(Tree(added.error));
    }
    return Ok(PutObject(objects, id, value));
  }

  lemma {:induction false} OwnershipKeys(value: Option<Object>)
    ensures FiledOnly(Ownership(value).Keys, value)
  {
    forall key: Key | key !in Ownership(value).Keys ensures Filing(value, key).None? {
      OwnershipExact(value, key);
    }
  }

  // The start: no objects, no nodes.
  lemma {:induction false} NoObjects(nodes: Nodes)
    ensures Represents(nodes, WorldOf(map[])) <==> nodes == map[]
  {
    assert WorldOf(map[]) == map[];
    EmptyWorld(nodes);
  }

  // So whatever was written, in whatever order, the tree of a state is determined by its
  // objects, and it is the one a light client can rely on.
  lemma {:induction false} WrittenConsistent(objects: Database, a: Nodes, b: Nodes)
    requires Represents(a, WorldOf(objects)) && Represents(b, WorldOf(objects))
    ensures a == b
    ensures Consistent(BlockState(WorldOf(objects), objects)) && FitsWorld(WorldOf(objects))
  {
    StoreUnique(a, b, WorldOf(objects));
    ConsistentExact(objects, WorldOf(objects));
  }
}
