/**
 The flat node store behind the owner tree, its path-by-path update, and the
 refinement of both to the tree computed from scratch.
 Source: crates/chain/src/owner_proof.rs.
 */
module OwnerStore {
  import opened Wrappers
  import opened BitKeys
  import opened OwnerTree
  import opened OwnerPath

  // A node's storage key hashes its scope, depth and masked prefix together.
  datatype NodeKey = NodeKey(scope: Scope, prefix: Prefix)
  datatype StoredNode = LeafNode(leaf: OwnerLeaf) | BranchNode(left: Commitment, right: Commitment)

  type Nodes = map<NodeKey, StoredNode>

  predicate Readable(leaf: OwnerLeaf) {
    leaf.Summary? ==> WellFormed(leaf.root)
  }

  function DecodeLeaf(raw: Option<StoredNode>): Result<Option<OwnerLeaf>, OwnerProofError> {
    match raw
    case None => Ok(None)
    case Some(BranchNode(_, _)) => Err(Invalid)
    case Some(LeafNode(leaf)) => if Readable(leaf) then Ok(Some(leaf)) else Err(Invalid)
  }

  function DecodeBranch(raw: Option<StoredNode>): Result<(Commitment, Commitment), OwnerProofError> {
    match raw
    case None => Ok((EMPTY, EMPTY))
    case Some(LeafNode(_)) => Err(Invalid)
    case Some(BranchNode(left, right)) =>
      if WellFormed(left) && WellFormed(right) then Ok((left, right)) else Err(Invalid)
  }

  function EncodeBranch(left: Commitment, right: Commitment): Option<StoredNode> {
    if left.count == 0 && right.count == 0 then None else Some(BranchNode(left, right))
  }

  function EncodeLeaf(leaf: Option<OwnerLeaf>): Option<StoredNode> {
    match leaf
    case None => None
    case Some(l) => Some(LeafNode(l))
  }

  // ---------- What a store must hold ----------

  ghost function Stored(scope: Scope, m: Entries, p: Prefix): Option<StoredNode> {
    if |p| == DEPTH then EncodeLeaf(Lookup(m, p))
    else EncodeBranch(Node(scope, m, p + [false]), Node(scope, m, p + [true]))
  }

  ghost predicate Holds(nodes: Nodes, scope: Scope, m: Entries) {
    forall p: Prefix :: Lookup(nodes, NodeKey(scope, p)) == Stored(scope, m, p)
  }

  ghost predicate Sound(scope: Scope, m: Entries) {
    ValidEntries(scope, m) && forall k :: k in m ==> Readable(m[k])
  }

  lemma {:induction false} DecodeStored(scope: Scope, m: Entries, p: Prefix)
    requires |p| < DEPTH
    ensures DecodeBranch(Stored(scope, m, p)) == Ok((Node(scope, m, p + [false]), Node(scope, m, p + [true])))
  {
    NodeWellFormed(scope, m, p + [false]);
    NodeWellFormed(scope, m, p + [true]);
  }

  ghost function Put(m: Entries, key: Key, leaf: Option<OwnerLeaf>): Entries {
    if leaf.Some? then m[key := leaf.value] else m - {key}
  }

  // Nodes off the path to a key do not depend on its entry.
  lemma {:induction false} StoredOffPath(scope: Scope, m: Entries, key: Key, leaf: Option<OwnerLeaf>, p: Prefix)
    requires !Covers(p, key)
    ensures Node(scope, m, p) == Node(scope, Put(m, key, leaf), p)
    ensures Stored(scope, m, p) == Stored(scope, Put(m, key, leaf), p)
  {
    NodeLocal(scope, m, Put(m, key, leaf), p);
    if |p| < DEPTH {
      CoversSplit(p, key);
      NodeLocal(scope, m, Put(m, key, leaf), p + [false]);
      NodeLocal(scope, m, Put(m, key, leaf), p + [true]);
    } else {
      assert Covers(p, p);
    }
  }

  // A node on a path fits whenever the root does.
  lemma {:induction false} FitsBelow(scope: Scope, m: Entries, key: Key, d: nat)
    requires d <= DEPTH && Fits(Root(scope, m))
    ensures Fits(Node(scope, m, key[..d]))
    decreases |key|, d
  {
    assert key[..0] == [];
    if d > 0 {
      FitsBelow(scope, m, key, d - 1);
      TakeNext(key, d - 1);
      NodeChildren(scope, m, key[..d - 1], key[d - 1]);
    }
  }

  lemma {:induction false} RootOverflows(scope: Scope, m: Entries, key: Key, d: nat)
    requires d <= DEPTH && !Fits(Node(scope, m, key[..d]))
    ensures !Fits(Root(scope, m))
  {
    if Fits(Root(scope, m)) {
      FitsBelow(scope, m, key, d);
    }
  }

  // Below depth d the path to `key` holds the new entries; everything else is as before.
  ghost predicate Rewritten(nodes: Nodes, before: Nodes, scope: Scope, m: Entries, key: Key, d: nat) {
    && (forall p: Prefix :: Covers(p, key) && d <= |p| ==> Lookup(nodes, NodeKey(scope, p)) == Stored(scope, m, p))
    && (forall nk: NodeKey :: !(nk.scope == scope && Covers(nk.prefix, key) && d <= |nk.prefix|) ==>
          Lookup(nodes, nk) == Lookup(before, nk))
  }

  lemma {:induction false} LeafRewritten(nodes: Nodes, before: Nodes, scope: Scope, m: Entries, key: Key)
    requires Lookup(nodes, NodeKey(scope, key)) == EncodeLeaf(Lookup(m, key))
    requires forall nk :: nk != NodeKey(scope, key) ==> Lookup(nodes, nk) == Lookup(before, nk)
    ensures Rewritten(nodes, before, scope, m, key, DEPTH)
  {
    assert Covers(key, key);
    forall p: Prefix | Covers(p, key) && DEPTH <= |p|
      ensures p == key
    {
      assert key == key[..|p|];
    }
  }

  lemma {:induction false} RewriteLevel(
    nodes: Nodes, was: Nodes, before: Nodes, scope: Scope, m: Entries, key: Key, d: nat)
    requires d < DEPTH && Rewritten(was, before, scope, m, key, d + 1)
    requires Lookup(nodes, NodeKey(scope, key[..d])) == Stored(scope, m, key[..d])
    requires forall nk :: nk != NodeKey(scope, key[..d]) ==> Lookup(nodes, nk) == Lookup(was, nk)
    ensures Rewritten(nodes, before, scope, m, key, d)
  {
    assert Covers(key[..d], key);
    forall p: Prefix | Covers(p, key) && d <= |p|
      ensures p == key[..d] || d + 1 <= |p|
    {
      assert p == key[..|p|];
    }
  }

  lemma {:induction false} RewriteDone(
    nodes: Nodes, before: Nodes, scope: Scope, m: Entries, key: Key, leaf: Option<OwnerLeaf>)
    requires Holds(before, scope, m)
    requires Rewritten(nodes, before, scope, Put(m, key, leaf), key, 0)
    ensures Holds(nodes, scope, Put(m, key, leaf))
  {
    forall p: Prefix
      ensures Lookup(nodes, NodeKey(scope, p)) == Stored(scope, Put(m, key, leaf), p)
    {
      if !Covers(p, key) {
        StoredOffPath(scope, m, key, leaf, p);
        assert Lookup(nodes, NodeKey(scope, p)) == Lookup(before, NodeKey(scope, p));
      }
    }
  }

  // One level of the new tree: the sibling is the old one.
  lemma {:induction false} LevelAfter(scope: Scope, m: Entries, key: Key, leaf: Option<OwnerLeaf>, d: nat)
    requires d < DEPTH
    ensures Node(scope, Put(m, key, leaf), key[..d] + [!key[d]]) == Sibling(scope, m, key, d)
    ensures Node(scope, Put(m, key, leaf), key[..d])
            == Oriented(key[d], Node(scope, Put(m, key, leaf), key[..d + 1]), Sibling(scope, m, key, d))
    ensures Node(scope, Put(m, key, leaf), key[..d]).count
            == Node(scope, Put(m, key, leaf), key[..d + 1]).count + Sibling(scope, m, key, d).count
    ensures Node(scope, Put(m, key, leaf), key[..d]).balance
            == Node(scope, Put(m, key, leaf), key[..d + 1]).balance + Sibling(scope, m, key, d).balance
    ensures Stored(scope, Put(m, key, leaf), key[..d])
            == if key[d] then EncodeBranch(Sibling(scope, m, key, d), Node(scope, Put(m, key, leaf), key[..d + 1]))
               else EncodeBranch(Node(scope, Put(m, key, leaf), key[..d + 1]), Sibling(scope, m, key, d))
  {
    CoversSplit(key[..d], key);
    StoredOffPath(scope, m, key, leaf, key[..d] + [!key[d]]);
    TakeNext(key, d);
    NodeChildren(scope, Put(m, key, leaf), key[..d], key[d]);
  }

  // ---------- Reading a path out of any store ----------

  ghost function BranchAt(
    nodes: Nodes, scope: Scope, key: Key, d: nat): Result<(Commitment, Commitment), OwnerProofError>
    requires d < DEPTH
  {
    DecodeBranch(Lookup(nodes, NodeKey(scope, key[..d])))
  }

  ghost function StoredSibling(nodes: Nodes, scope: Scope, key: Key, d: nat): Commitment
    requires d < DEPTH
  {
    match BranchAt(nodes, scope, key, d)
    case Err(_) => EMPTY
    case Ok((left, right)) => if key[d] then left else right
  }

  ghost function StoredVector(nodes: Nodes, scope: Scope, key: Key): (v: seq<Commitment>)
    ensures |v| == DEPTH
    ensures forall i :: 0 <= i < DEPTH ==> v[i] == StoredSibling(nodes, scope, key, i)
  {
    seq(DEPTH, i requires 0 <= i < DEPTH => StoredSibling(nodes, scope, key, i))
  }

  ghost predicate ReadablePath(nodes: Nodes, scope: Scope, key: Key) {
    && (forall d :: 0 <= d < DEPTH ==> BranchAt(nodes, scope, key, d).Ok?)
    && DecodeLeaf(Lookup(nodes, NodeKey(scope, key))).Ok?
  }

  ghost function StoredPath(nodes: Nodes, scope: Scope, key: Key): OwnerPathProof
    requires ReadablePath(nodes, scope, key)
  {
    OwnerPathProof(DecodeLeaf(Lookup(nodes, NodeKey(scope, key))).value,
        Compact(StoredVector(nodes, scope, key), DEPTH))
  }

  // Whatever the store, a path read out of it is canonical and expands to the siblings that
  // were read.
  lemma {:induction false} StoredPathExpands(nodes: Nodes, scope: Scope, key: Key)
    requires ReadablePath(nodes, scope, key)
    ensures Canonical(StoredPath(nodes, scope, key).siblings)
    ensures Expanded(StoredPath(nodes, scope, key).siblings) == StoredVector(nodes, scope, key)
  {
    var v := StoredVector(nodes, scope, key);
    forall i | 0 <= i < DEPTH ensures WellFormed(v[i]) {
      assert v[i] == StoredSibling(nodes, scope, key, i);
    }
    CompactCanonical(v, DEPTH);
    ExpandCompact(v, DEPTH);
  }

  lemma {:induction false} StoredIsHonest(nodes: Nodes, scope: Scope, m: Entries, key: Key)
    requires Holds(nodes, scope, m) && Sound(scope, m)
    ensures ReadablePath(nodes, scope, key) && StoredPath(nodes, scope, key) == HonestPath(scope, m, key)
  {
    forall d | 0 <= d < DEPTH
      ensures BranchAt(nodes, scope, key, d).Ok? && StoredSibling(nodes, scope, key, d) == Sibling(scope, m, key, d)
    {
      assert Lookup(nodes, NodeKey(scope, key[..d])) == Stored(scope, m, key[..d]);
      DecodeStored(scope, m, key[..d]);
    }
    assert Lookup(nodes, NodeKey(scope, key)) == Stored(scope, m, key);
    assert StoredVector(nodes, scope, key) == SiblingVector(scope, m, key);
  }

  // The state a refused update leaves: nothing written, or the path rewritten from the leaf
  // up to the depth above which the totals overflow.
  ghost predicate Interrupted(nodes: Nodes, before: Nodes, scope: Scope, m: Entries, key: Key) {
    exists d: nat :: 1 <= d <= DEPTH && StoppedAt(nodes, before, scope, m, key, d)
  }

  ghost predicate StoppedAt(nodes: Nodes, before: Nodes, scope: Scope, m: Entries, key: Key, d: nat)
    requires 1 <= d <= DEPTH
  {
    Rewritten(nodes, before, scope, m, key, d) && !Fits(Node(scope, m, key[..d - 1]))
  }

  class MemoryOwnerTree {
    var nodes: Nodes

    constructor ()
      ensures nodes == map[]
    {
      nodes := map[];
    }

    method PutNode(key: NodeKey, value: Option<StoredNode>)
      modifies this
      ensures Lookup(nodes, key) == value
      ensures forall nk :: nk != key ==> Lookup(nodes, nk) == Lookup(old(nodes), nk)
    {
      match value
      case Some(v) => nodes := nodes[key := v];
      case None => nodes := nodes - {key};
    }

    // Reads the path to a key out of any store: refused exactly when a node on the way does
    // not decode.
    method Path(scope: Scope, key: Key) returns (r: Result<OwnerPathProof, OwnerProofError>)
      ensures r.Ok? <==> ReadablePath(nodes, scope, key)
      ensures r.Ok? ==> r.value == StoredPath(nodes, scope, key)
      ensures r.Err? ==> r.error == Invalid
    {
      var siblings: seq<OwnerSibling> := [];
      ghost var v := StoredVector(nodes, scope, key);
      for depth := 0 to DEPTH
        invariant forall d :: 0 <= d < depth ==> BranchAt(nodes, scope, key, d).Ok?
        invariant siblings == Compact(v, depth)
      {
        var branch := DecodeBranch(Lookup(nodes, NodeKey(scope, key[..depth])));
        if branch.Err? {
          assert BranchAt(nodes, scope, key, depth).Err?;
          return Err(Invalid);
        }
        var sibling := if key[depth] then branch.value.0 else branch.value.1;
        assert sibling == StoredSibling(nodes, scope, key, depth) == v[depth];
        if sibling.count > 0 {
          siblings := siblings + [OwnerSibling(depth, sibling)];
        }
      }
      var leaf := DecodeLeaf(Lookup(nodes, NodeKey(scope, key)));
      if leaf.Err? {
        return Err(Invalid);
      }
      return Ok(OwnerPathProof(leaf.value, siblings));
    }

    // The path out of a store that holds a map is that map's honest path.
    method HeldPath(scope: Scope, key: Key, ghost m: Entries) returns (r: Result<OwnerPathProof, OwnerProofError>)
      requires Holds(nodes, scope, m) && Sound(scope, m)
      ensures r == Ok(HonestPath(scope, m, key))
    {
      StoredIsHonest(nodes, scope, m, key);
      r := Path(scope, key);
    }

    // Succeeds exactly when the leaf is valid and the new totals fit; the store then
    // holds the tree of the new entries and every other scope is untouched.
    method Update(scope: Scope, key: Key, leaf: Option<OwnerLeaf>, ghost m: Entries)
      returns (r: Result<Commitment, OwnerProofError>)
      requires Holds(nodes, scope, m) && Sound(scope, m) && Fits(Root(scope, m))
      modifies this
      ensures r.Ok? <==> (leaf.Some? ==> ValidLeaf(scope, leaf.value)) && Fits(Root(scope, Put(m, key, leaf)))
      ensures r.Ok? ==> r.value == Root(scope, Put(m, key, leaf))
      ensures r.Ok? ==> Holds(nodes, scope, Put(m, key, leaf))
      ensures r.Err? ==>
                if leaf.Some? && !ValidLeaf(scope, leaf.value) then nodes == old(nodes)
                else Interrupted(nodes, old(nodes), scope, Put(m, key, leaf), key)
      ensures forall nk: NodeKey :: nk.scope != scope ==> Lookup(nodes, nk) == Lookup(old(nodes), nk)
    {
      var proof := HeldPath(scope, key, m);
      if proof.Err? {
        return Err(Invalid);
      }
      HonestVector(scope, m, key);
      var expanded := ExpandSiblings(proof.value);
      if expanded.Err? {
        return Err(Invalid);
      }
      var siblings := expanded.value;
      var start := LeafCommit(scope, key, leaf);
      if start.Err? {
        return Err(start.error);
      }
      ghost var before := nodes;
      PutNode(NodeKey(scope, key), EncodeLeaf(leaf));
      LeafRewritten(nodes, before, scope, Put(m, key, leaf), key);
      r := RewritePath(scope, key, siblings, start.value, m, leaf, before);
      if r.Ok? {
        RewriteDone(nodes, before, scope, m, key, leaf);
      }
    }

    // Update's climb from the written leaf to the root.
    method RewritePath(scope: Scope, key: Key, siblings: seq<Commitment>, start: Commitment,
                       ghost m: Entries, ghost leaf: Option<OwnerLeaf>, ghost before: Nodes)
      returns (r: Result<Commitment, OwnerProofError>)
      requires siblings == SiblingVector(scope, m, key) && start == Node(scope, Put(m, key, leaf), key)
      requires Rewritten(nodes, before, scope, Put(m, key, leaf), key, DEPTH)
      modifies this
      ensures r.Ok? <==> Fits(Root(scope, Put(m, key, leaf)))
      ensures r.Ok? ==> r.value == Root(scope, Put(m, key, leaf))
      ensures r.Ok? ==> Rewritten(nodes, before, scope, Put(m, key, leaf), key, 0)
      ensures r.Err? ==> Interrupted(nodes, before, scope, Put(m, key, leaf), key)
      ensures forall nk: NodeKey :: nk.scope != scope ==> Lookup(nodes, nk) == Lookup(old(nodes), nk)
    {
      ghost var after := Put(m, key, leaf);
      var current := start;
      assert key[..DEPTH] == key;
      var depth: nat := DEPTH;
      while depth > 0
        invariant depth <= DEPTH
        invariant current == Node(scope, after, key[..depth])
        invariant depth < DEPTH ==> Fits(current)
        invariant Rewritten(nodes, before, scope, after, key, depth)
        invariant forall nk: NodeKey :: nk.scope != scope ==> Lookup(nodes, nk) == Lookup(old(nodes), nk)
      {
        depth := depth - 1;
        var next := WriteLevel(scope, key, depth, siblings[depth], current, m, leaf, before);
        if next.Err? {
          RootOverflows(scope, after, key, depth);
          assert StoppedAt(nodes, before, scope, after, key, depth + 1);
          return Err(next.error);
        }
        current := next.value;
      }
      assert key[..0] == [];
      return Ok(current);
    }

    // One level of Update's climb: combine with the sibling and store the branch.
    method WriteLevel(scope: Scope, key: Key, depth: nat, sibling: Commitment, current: Commitment,
                      ghost m: Entries, ghost leaf: Option<OwnerLeaf>, ghost before: Nodes)
      returns (r: Result<Commitment, OwnerProofError>)
      requires depth < DEPTH && sibling == Sibling(scope, m, key, depth)
      requires current == Node(scope, Put(m, key, leaf), key[..depth + 1])
      requires Rewritten(nodes, before, scope, Put(m, key, leaf), key, depth + 1)
      modifies this
      ensures r.Ok? <==> Fits(Node(scope, Put(m, key, leaf), key[..depth]))
      ensures r.Ok? ==> r.value == Node(scope, Put(m, key, leaf), key[..depth])
      ensures r.Ok? ==> Rewritten(nodes, before, scope, Put(m, key, leaf), key, depth)
      ensures r.Err? ==> nodes == old(nodes)
      ensures forall nk: NodeKey :: nk.scope != scope ==> Lookup(nodes, nk) == Lookup(old(nodes), nk)
    {
      LevelAfter(scope, m, key, leaf, depth);
      var left, right := if key[depth] then sibling else current, if key[depth] then current else sibling;
      var next := Combine(left, right);
      if next.Err? {
        return Err(next.error);
      }
      ghost var was := nodes;
      PutNode(NodeKey(scope, key[..depth]), EncodeBranch(left, right));
      RewriteLevel(nodes, was, before, scope, Put(m, key, leaf), key, depth);
      return next;
    }
  }
}
