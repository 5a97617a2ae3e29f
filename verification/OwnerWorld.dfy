/**
 The two-level owner tree: every owner's holdings tree, and the summary tree
 whose leaves are the holdings roots. The store is a function of the holdings.
 Source: crates/chain/src/owner_proof.rs.
 */
module OwnerWorld {
  import opened Wrappers
  import opened BitKeys
  import opened OwnerTree
  import opened OwnerPath
  import opened OwnerStore

  // Holdings by owner; an owner without holdings has no entry.
  type World = map<Key, Entries>

  datatype HoldingUpdate = HoldingUpdate(owner: Key, id: Key, value: Option<OwnerLeaf>)

  ghost function HeldBy(w: World, owner: Key): Entries {
    if owner in w then w[owner] else map[]
  }

  ghost function HoldingsRoot(w: World, owner: Key): Commitment {
    Root(HoldingsOf(owner), HeldBy(w, owner))
  }

  ghost function Summaries(w: World): Entries {
    map o | o in w :: Summary(Root(HoldingsOf(o), w[o]))
  }

  ghost function OwnersRoot(w: World): Commitment {
    Root(Owners, Summaries(w))
  }

  ghost predicate ValidWorld(w: World) {
    forall o :: o in w ==> w[o] != map[] && ValidEntries(HoldingsOf(o), w[o])
  }

  ghost predicate FitsWorld(w: World) {
    Fits(OwnersRoot(w)) && forall o :: o in w ==> Fits(Root(HoldingsOf(o), w[o]))
  }

  // The store holds exactly the nodes of the world's trees.
  ghost predicate Represents(nodes: Nodes, w: World) {
    && ValidWorld(w) && FitsWorld(w)
    && Holds(nodes, Owners, Summaries(w))
    && forall o: Key :: Holds(nodes, HoldingsOf(o), HeldBy(w, o))
  }

  ghost function SetHolding(w: World, u: HoldingUpdate): World {
    var held := Put(HeldBy(w, u.owner), u.id, u.value);
    if held == map[] then w - {u.owner} else w[u.owner := held]
  }

  ghost predicate Admissible(w: World, u: HoldingUpdate) {
    && (u.value.Some? ==> ValidLeaf(HoldingsOf(u.owner), u.value.value))
    && Fits(HoldingsRoot(SetHolding(w, u), u.owner))
    && Fits(OwnersRoot(SetHolding(w, u)))
  }

  // ---------- Facts about roots ----------

  lemma {:induction false} EmptyIffCountZero(scope: Scope, m: Entries)
    ensures Root(scope, m).count == 0 <==> m == map[]
    ensures m == map[] ==> Root(scope, m) == EMPTY
  {
    NodeTotals(scope, m, []);
    NodeWellFormed(scope, m, []);
    ListingExact(m);
    assert |Listing(m)| == 0 || Listing(m)[0] in Listing(m);
    if m != map[] {
      var k :| k in m;
      assert k in Listing(m);
    }
  }

  lemma {:induction false} EmptyFits(scope: Scope)
    ensures Fits(Root(scope, map[]))
  {
    EmptyIffCountZero(scope, map[]);
  }

  lemma {:induction false} SummariesSound(w: World)
    requires ValidWorld(w)
    ensures Sound(Owners, Summaries(w))
  {
    forall o | o in w
      ensures ValidLeaf(Owners, Summary(Root(HoldingsOf(o), w[o])))
      ensures Readable(Summary(Root(HoldingsOf(o), w[o])))
    {
      EmptyIffCountZero(HoldingsOf(o), w[o]);
      NodeWellFormed(HoldingsOf(o), w[o], []);
    }
  }

  lemma {:induction false} HeldSound(w: World, owner: Key)
    requires ValidWorld(w)
    ensures Sound(HoldingsOf(owner), HeldBy(w, owner))
    ensures FitsWorld(w) ==> Fits(HoldingsRoot(w, owner))
  {
    EmptyFits(HoldingsOf(owner));
  }

  // Changing one holding changes one summary.
  lemma {:induction false} SummariesAfter(w: World, u: HoldingUpdate)
    ensures HeldBy(SetHolding(w, u), u.owner) == Put(HeldBy(w, u.owner), u.id, u.value)
    ensures forall o: Key :: o != u.owner ==> HeldBy(SetHolding(w, u), o) == HeldBy(w, o)
    ensures var root := HoldingsRoot(SetHolding(w, u), u.owner);
            Summaries(SetHolding(w, u))
            == Put(Summaries(w), u.owner, if root.count == 0 then None else Some(Summary(root)))
  {
    EmptyIffCountZero(HoldingsOf(u.owner), HeldBy(SetHolding(w, u), u.owner));
  }

  lemma {:induction false} SetHoldingValid(w: World, u: HoldingUpdate)
    requires ValidWorld(w)
    requires u.value.Some? ==> ValidLeaf(HoldingsOf(u.owner), u.value.value)
    ensures ValidWorld(SetHolding(w, u))
  {
  }

  // ---------- The operations ----------

  method OwnerRoot(tree: MemoryOwnerTree, ghost w: World) returns (r: Result<Hash, OwnerProofError>)
    requires Represents(tree.nodes, w)
    ensures r == Ok(OwnersRoot(w).hash)
  {
    DecodeStored(Owners, Summaries(w), []);
    assert [] + [false] == [false] && [] + [true] == [true];
    var branch := DecodeBranch(Lookup(tree.nodes, NodeKey(Owners, [])));
    if branch.Err? {
      return Err(Invalid);
    }
    NodeChildren(Owners, Summaries(w), [], false);
    var root := Combine(branch.value.0, branch.value.1);
    if root.Err? {
      return Err(Invalid);
    }
    return Ok(root.value.hash);
  }

  // Nodes of one owner's holdings and of the summaries are all that an update can touch.
  lemma {:induction false} OthersKept(before: Nodes, nodes: Nodes, w: World, owner: Key)
    requires Represents(before, w)
    requires forall nk: NodeKey :: nk.scope != HoldingsOf(owner) && nk.scope != Owners ==>
               Lookup(nodes, nk) == Lookup(before, nk)
    ensures forall o: Key :: o != owner ==> Holds(nodes, HoldingsOf(o), HeldBy(w, o))
  {
    forall o: Key | o != owner ensures Holds(nodes, HoldingsOf(o), HeldBy(w, o)) {
      assert Holds(before, HoldingsOf(o), HeldBy(w, o));
      HoldsFramed(before, nodes, HoldingsOf(o), HeldBy(w, o));
    }
  }

  // A tree caught in the middle of an update: the key's path is written for the new entries
  // from the leaf up to a depth above which the totals overflow, and all else is old.
  ghost predicate HalfAt(nodes: Nodes, scope: Scope, was: Entries, now: Entries, key: Key, d: nat)
    requires 1 <= d <= DEPTH
  {
    && !Fits(Node(scope, now, key[..d - 1]))
    && forall p: Prefix :: Lookup(nodes, NodeKey(scope, p)) ==
         if Covers(p, key) && d <= |p| then Stored(scope, now, p) else Stored(scope, was, p)
  }

  ghost predicate HalfWritten(nodes: Nodes, scope: Scope, was: Entries, now: Entries, key: Key) {
    exists d: nat :: 1 <= d <= DEPTH && HalfAt(nodes, scope, was, now, key, d)
  }

  lemma {:induction false} InterruptedHalf(
    nodes: Nodes, before: Nodes, scope: Scope, was: Entries, now: Entries, key: Key)
    requires Interrupted(nodes, before, scope, now, key) && Holds(before, scope, was)
    ensures HalfWritten(nodes, scope, was, now, key)
  {
    var d: nat :| 1 <= d <= DEPTH && StoppedAt(nodes, before, scope, now, key, d);
    forall p: Prefix
      ensures Lookup(nodes, NodeKey(scope, p)) ==
                if Covers(p, key) && d <= |p| then Stored(scope, now, p) else Stored(scope, was, p)
    {
      assert Lookup(before, NodeKey(scope, p)) == Stored(scope, was, p);
    }
    assert HalfAt(nodes, scope, was, now, key, d);
  }

  // What the whole store holds after a refusal, told from the world and the update alone:
  // nothing changed for a bad value; or the owner's holdings are half written and the
  // summaries old; or the holdings are new and the summaries half written. Every other
  // owner's holdings are as they were.
  ghost predicate Refused(nodes: Nodes, w: World, u: HoldingUpdate) {
    && !Admissible(w, u)
    && (forall o: Key :: o != u.owner ==> Holds(nodes, HoldingsOf(o), HeldBy(w, o)))
    && RefusedState(nodes, w, SetHolding(w, u), u)
  }

  ghost predicate RefusedState(nodes: Nodes, w: World, after: World, u: HoldingUpdate) {
    if u.value.Some? && !ValidLeaf(HoldingsOf(u.owner), u.value.value) then Represents(nodes, w)
    else if !Fits(HoldingsRoot(after, u.owner)) then
      && Holds(nodes, Owners, Summaries(w))
      && HalfWritten(nodes, HoldingsOf(u.owner), HeldBy(w, u.owner), HeldBy(after, u.owner), u.id)
    else
      && Holds(nodes, HoldingsOf(u.owner), HeldBy(after, u.owner))
      && HalfWritten(nodes, Owners, Summaries(w), Summaries(after), u.owner)
  }

  // The first of the two updates was refused.
  lemma {:induction false} HoldingsRefused(before: Nodes, nodes: Nodes, w: World, u: HoldingUpdate)
    requires Represents(before, w)
    requires forall nk: NodeKey :: nk.scope != HoldingsOf(u.owner) ==> Lookup(nodes, nk) == Lookup(before, nk)
    requires if u.value.Some? && !ValidLeaf(HoldingsOf(u.owner), u.value.value) then nodes == before
             else
               && !Fits(HoldingsRoot(SetHolding(w, u), u.owner))
               && Interrupted(nodes, before, HoldingsOf(u.owner), HeldBy(SetHolding(w, u), u.owner), u.id)
    ensures Refused(nodes, w, u)
  {
    OthersKept(before, nodes, w, u.owner);
    if !(u.value.Some? && !ValidLeaf(HoldingsOf(u.owner), u.value.value)) {
      HoldsFramed(before, nodes, Owners, Summaries(w));
      assert Holds(before, HoldingsOf(u.owner), HeldBy(w, u.owner));
      InterruptedHalf(nodes, before, HoldingsOf(u.owner), HeldBy(w, u.owner), HeldBy(SetHolding(w, u), u.owner), u.id);
    }
  }

  // The second was.
  lemma {:induction false} SummariesRefused(before: Nodes, middle: Nodes, nodes: Nodes, w: World, u: HoldingUpdate)
    requires Represents(before, w) && (u.value.Some? ==> ValidLeaf(HoldingsOf(u.owner), u.value.value))
    requires Fits(HoldingsRoot(SetHolding(w, u), u.owner)) && !Fits(OwnersRoot(SetHolding(w, u)))
    requires forall nk: NodeKey :: nk.scope != HoldingsOf(u.owner) ==> Lookup(middle, nk) == Lookup(before, nk)
    requires forall nk: NodeKey :: nk.scope != Owners ==> Lookup(nodes, nk) == Lookup(middle, nk)
    requires Holds(middle, HoldingsOf(u.owner), HeldBy(SetHolding(w, u), u.owner))
    requires Interrupted(nodes, middle, Owners, Summaries(SetHolding(w, u)), u.owner)
    ensures Refused(nodes, w, u)
  {
    OthersKept(before, nodes, w, u.owner);
    HoldsFramed(before, middle, Owners, Summaries(w));
    HoldsFramed(middle, nodes, HoldingsOf(u.owner), HeldBy(SetHolding(w, u), u.owner));
    InterruptedHalf(nodes, middle, Owners, Summaries(w), Summaries(SetHolding(w, u)), u.owner);
  }

  // Succeeds exactly on admissible updates, and then the store is the new world's.
  method UpdateHolding(tree: MemoryOwnerTree, u: HoldingUpdate, ghost w: World) returns (r: Result<(), OwnerProofError>)
    requires Represents(tree.nodes, w)
    modifies tree
    ensures r.Ok? <==> Admissible(w, u)
    ensures r.Ok? ==> Represents(tree.nodes, SetHolding(w, u))
    ensures r.Err? ==> Refused(tree.nodes, w, u)
  {
    ghost var after := SetHolding(w, u);
    ghost var before := tree.nodes;
    SummariesAfter(w, u);
    HeldSound(w, u.owner);
    assert Holds(tree.nodes, HoldingsOf(u.owner), HeldBy(w, u.owner));
    var holdings := tree.Update(HoldingsOf(u.owner), u.id, u.value, HeldBy(w, u.owner));
    ghost var middle := tree.nodes;
    if holdings.Err? {
      HoldingsRefused(before, middle, w, u);
      return Err(holdings.error);
    }
    assert holdings.value == HoldingsRoot(after, u.owner);
    SummariesSound(w);
    HoldsFramed(before, middle, Owners, Summaries(w));
    var summary := if holdings.value.count == 0 then None else Some(Summary(holdings.value));
    var owners := tree.Update(Owners, u.owner, summary, Summaries(w));
    if owners.Err? {
      SummariesRefused(before, middle, tree.nodes, w, u);
      return Err(owners.error);
    }
    OthersKept(before, tree.nodes, w, u.owner);
    SetHoldingValid(w, u);
    HoldsFramed(middle, tree.nodes, HoldingsOf(u.owner), HeldBy(after, u.owner));
    return Ok(());
  }

  lemma {:induction false} HoldsFramed(a: Nodes, b: Nodes, scope: Scope, m: Entries)
    requires Holds(a, scope, m)
    requires forall nk: NodeKey :: nk.scope == scope ==> Lookup(b, nk) == Lookup(a, nk)
    ensures Holds(b, scope, m)
  {
    forall p: Prefix
      ensures Lookup(b, NodeKey(scope, p)) == Stored(scope, m, p)
    {
      assert Lookup(a, NodeKey(scope, p)) == Stored(scope, m, p);
    }
  }

  // ---------- Runs ----------

  ghost function RunUpdates(w: World, us: seq<HoldingUpdate>): World {
    if us == [] then w else SetHolding(RunUpdates(w, us[..|us| - 1]), us[|us| - 1])
  }

  ghost predicate AllAdmissible(w: World, us: seq<HoldingUpdate>) {
    us == [] || (AllAdmissible(w, us[..|us| - 1]) && Admissible(RunUpdates(w, us[..|us| - 1]), us[|us| - 1]))
  }

  lemma {:induction false} AdmissiblePrefix(w: World, us: seq<HoldingUpdate>, i: nat)
    requires i <= |us| && AllAdmissible(w, us)
    ensures AllAdmissible(w, us[..i])
  {
    if i == |us| {
      assert us[..i] == us;
    } else {
      AdmissiblePrefix(w, us[..|us| - 1], i);
      assert us[..|us| - 1][..i] == us[..i];
    }
  }

  // Applies updates up to the first that is refused, and says how many were applied.
  method ApplyUpdates(tree: MemoryOwnerTree, us: seq<HoldingUpdate>, ghost w: World) returns (applied: nat)
    requires Represents(tree.nodes, w)
    modifies tree
    ensures applied <= |us| && AllAdmissible(w, us[..applied])
    ensures applied == |us| <==> AllAdmissible(w, us)
    ensures applied == |us| ==> Represents(tree.nodes, RunUpdates(w, us))
    ensures applied < |us| ==> Refused(tree.nodes, RunUpdates(w, us[..applied]), us[applied])
  {
    assert us[..0] == [];
    for i := 0 to |us|
      invariant AllAdmissible(w, us[..i])
      invariant Represents(tree.nodes, RunUpdates(w, us[..i]))
    {
      ghost var more := us[..i + 1];
      assert more[..|more| - 1] == us[..i] && more[|more| - 1] == us[i];
      var step := UpdateHolding(tree, us[i], RunUpdates(w, us[..i]));
      if step.Err? {
        assert !AllAdmissible(w, us) by {
          if AllAdmissible(w, us) {
            AdmissiblePrefix(w, us, i + 1);
          }
        }
        return i;
      }
    }
    assert us[..|us|] == us;
    return |us|;
  }

  // Refinement: the nodes are determined by the holdings.
  lemma {:induction false} StoreUnique(a: Nodes, b: Nodes, w: World)
    requires Represents(a, w) && Represents(b, w)
    ensures a == b
  {
    forall nk: NodeKey
      ensures Lookup(a, nk) == Lookup(b, nk)
    {
      match nk.scope {
        case Owners =>
          assert nk == NodeKey(Owners, nk.prefix);
        case HoldingsOf(o) =>
          assert Holds(a, HoldingsOf(o), HeldBy(w, o)) && Holds(b, HoldingsOf(o), HeldBy(w, o));
          assert nk == NodeKey(HoldingsOf(o), nk.prefix);
      }
    }
    MapsAgree(a, b);
  }

  lemma {:induction false} MapsAgree(a: Nodes, b: Nodes)
    requires forall nk: NodeKey :: Lookup(a, nk) == Lookup(b, nk)
    ensures a == b
  {
    forall nk: NodeKey
      ensures nk in a <==> nk in b
      ensures nk in a ==> a[nk] == b[nk]
    {
      assert Lookup(a, nk) == Lookup(b, nk);
    }
  }

  // The last value written for one holding, if any was.
  ghost function LastWrite(us: seq<HoldingUpdate>, owner: Key, id: Key): Option<OwnerLeaf> {
    if us == [] then None
    else
      var u := us[|us| - 1];
      if u.owner == owner && u.id == id then u.value else LastWrite(us[..|us| - 1], owner, id)
  }

  lemma {:induction false} RunIsLastWrite(us: seq<HoldingUpdate>, owner: Key, id: Key)
    ensures Lookup(HeldBy(RunUpdates(map[], us), owner), id) == LastWrite(us, owner, id)
  {
    if us != [] {
      var prev, u := us[..|us| - 1], us[|us| - 1];
      RunIsLastWrite(prev, owner, id);
      SummariesAfter(RunUpdates(map[], prev), u);
    }
  }

  lemma {:induction false} WorldExtensional(a: World, b: World)
    requires ValidWorld(a) && ValidWorld(b)
    requires forall o: Key, k: Key :: Lookup(HeldBy(a, o), k) == Lookup(HeldBy(b, o), k)
    ensures a == b
  {
    forall o: Key
      ensures HeldBy(a, o) == HeldBy(b, o)
    {
      forall k: Key
        ensures k in HeldBy(a, o) <==> k in HeldBy(b, o)
        ensures k in HeldBy(a, o) ==> HeldBy(a, o)[k] == HeldBy(b, o)[k]
      {
        assert Lookup(HeldBy(a, o), k) == Lookup(HeldBy(b, o), k);
      }
    }
    forall o: Key
      ensures o in a <==> o in b
      ensures o in a ==> a[o] == b[o]
    {
      assert HeldBy(a, o) == HeldBy(b, o);
    }
  }

  // History independence: two successful histories that leave the same last value in
  // every holding leave the same nodes and the same root, whatever their order.
  lemma {:induction false} HistoryIndependent(us: seq<HoldingUpdate>, vs: seq<HoldingUpdate>, a: Nodes, b: Nodes)
    requires Represents(a, RunUpdates(map[], us)) && Represents(b, RunUpdates(map[], vs))
    requires forall o: Key, k: Key :: LastWrite(us, o, k) == LastWrite(vs, o, k)
    ensures a == b
    ensures OwnersRoot(RunUpdates(map[], us)) == OwnersRoot(RunUpdates(map[], vs))
  {
    forall o: Key, k: Key
      ensures Lookup(HeldBy(RunUpdates(map[], us), o), k) == Lookup(HeldBy(RunUpdates(map[], vs), o), k)
    {
      RunIsLastWrite(us, o, k);
      RunIsLastWrite(vs, o, k);
    }
    WorldExtensional(RunUpdates(map[], us), RunUpdates(map[], vs));
    StoreUnique(a, b, RunUpdates(map[], us));
  }

  // The empty store is the empty world's, and the only one: removing everything
  // leaves no nodes and the zero root.
  lemma {:induction false} EmptyWorld(nodes: Nodes)
    ensures Represents(nodes, map[]) <==> nodes == map[]
    ensures OwnersRoot(map[]).hash == ZERO
  {
    assert Summaries(map[]) == map[];
    EmptyFits(Owners);
    EmptyIffCountZero(Owners, map[]);
    forall scope: Scope
      ensures Holds(map[], scope, map[])
    {
      forall p: Prefix
        ensures Stored(scope, map[], p) == None
      {
        EmptyBelow(scope, p);
      }
    }
    if Represents(nodes, map[]) {
      StoreUnique(nodes, map[], map[]);
    }
  }

  lemma {:induction false} EmptyBelow(scope: Scope, p: Prefix)
    ensures Node(scope, map[], p) == EMPTY
    ensures Stored(scope, map[], p) == None
    decreases DEPTH - |p|
  {
    if |p| < DEPTH {
      EmptyBelow(scope, p + [false]);
      EmptyBelow(scope, p + [true]);
    }
  }

  lemma {:induction false} RemovedEverything(us: seq<HoldingUpdate>, nodes: Nodes)
    requires Represents(nodes, RunUpdates(map[], us))
    requires forall o: Key, k: Key :: LastWrite(us, o, k) == None
    ensures nodes == map[] && OwnersRoot(RunUpdates(map[], us)).hash == ZERO
  {
    EmptyWorld(map[]);
    assert RunUpdates(map[], []) == map[];
    assert forall o: Key, k: Key :: LastWrite([], o, k) == None;
    HistoryIndependent(us, [], nodes, map[]);
  }
}
