/**
 Path proofs: expansion of compact siblings, the climb to the root, and what
 an accepted path says about the tree it was checked against.
 Source: crates/chain/src/owner_proof.rs.
 */
module OwnerPath {
  import opened Wrappers
  import opened BitKeys
  import opened OwnerTree

  datatype OwnerSibling = OwnerSibling(depth: nat, commitment: Commitment)
  datatype OwnerPathProof = OwnerPathProof(leaf: Option<OwnerLeaf>, siblings: seq<OwnerSibling>)

  // Strictly increasing depths, no empty siblings, nothing read_commit refuses.
  predicate Canonical(sibs: seq<OwnerSibling>) {
    && (forall i :: 0 <= i < |sibs| ==>
          sibs[i].depth < DEPTH && sibs[i].commitment.count != 0 && WellFormed(sibs[i].commitment))
    && (forall i, j :: 0 <= i < j < |sibs| ==> sibs[i].depth < sibs[j].depth)
  }

  predicate InRange(sibs: seq<OwnerSibling>) {
    forall i :: 0 <= i < |sibs| ==> sibs[i].depth < DEPTH
  }

  ghost predicate AllWellFormed(cs: seq<Commitment>) {
    forall i :: 0 <= i < |cs| ==> WellFormed(cs[i])
  }

  function Expanded(sibs: seq<OwnerSibling>): (e: seq<Commitment>)
    requires InRange(sibs)
    ensures |e| == DEPTH
  {
    if sibs == [] then seq(DEPTH, _ => EMPTY)
    else
      var last := sibs[|sibs| - 1];
      Expanded(sibs[..|sibs| - 1])[last.depth := last.commitment]
  }

  // The non-empty entries of a full sibling vector above depth d.
  ghost function Compact(full: seq<Commitment>, d: nat): seq<OwnerSibling>
    requires d <= |full|
    decreases |full|, d
  {
    if d == 0 then []
    else
      Compact(full, d - 1) + if full[d - 1].count > 0 then [OwnerSibling(d - 1, full[d - 1])] else []
  }

  lemma {:induction false} CompactCanonical(full: seq<Commitment>, d: nat)
    requires d <= |full| == DEPTH && AllWellFormed(full)
    ensures Canonical(Compact(full, d))
    ensures forall i :: 0 <= i < |Compact(full, d)| ==> Compact(full, d)[i].depth < d
  {
    if d > 0 {
      CompactCanonical(full, d - 1);
    }
  }

  lemma {:induction false} ExpandedSnoc(prev: seq<OwnerSibling>, last: OwnerSibling)
    requires InRange(prev) && last.depth < DEPTH
    ensures InRange(prev + [last])
    ensures Expanded(prev + [last]) == Expanded(prev)[last.depth := last.commitment]
  {
    var sibs := prev + [last];
    assert sibs[..|sibs| - 1] == prev;
  }

  ghost predicate AgreesBelow(e: seq<Commitment>, full: seq<Commitment>, d: nat) {
    |e| == |full| && forall i :: 0 <= i < |full| ==> e[i] == if i < d then full[i] else EMPTY
  }

  // Expanding a compact vector restores every level, the empty ones included.
  lemma {:induction false} ExpandCompact(full: seq<Commitment>, d: nat)
    requires d <= |full| == DEPTH && AllWellFormed(full)
    ensures InRange(Compact(full, d))
    ensures AgreesBelow(Expanded(Compact(full, d)), full, d)
  {
    if d > 0 {
      ExpandCompact(full, d - 1);
      var c := full[d - 1];
      if c.count > 0 {
        ExpandedSnoc(Compact(full, d - 1), OwnerSibling(d - 1, c));
      } else {
        assert Compact(full, d) == Compact(full, d - 1);
        assert c == EMPTY;
      }
    }
  }

  // Increasing depths leave room for at most DEPTH siblings.
  lemma {:induction false} CanonicalDepths(sibs: seq<OwnerSibling>, i: nat)
    requires Canonical(sibs) && i < |sibs|
    ensures i <= sibs[i].depth
  {
    if i > 0 {
      CanonicalDepths(sibs, i - 1);
      assert sibs[i - 1].depth < sibs[i].depth;
    }
  }

  // One more sibling keeps the list canonical exactly when the loop's tests pass.
  lemma {:induction false} CanonicalStep(sibs: seq<OwnerSibling>, i: nat)
    requires i < |sibs| && Canonical(sibs[..i])
    ensures Canonical(sibs[..i + 1]) <==>
              && sibs[i].depth < DEPTH && sibs[i].commitment.count != 0 && WellFormed(sibs[i].commitment)
              && (i > 0 ==> sibs[i - 1].depth < sibs[i].depth)
    ensures Canonical(sibs) ==> Canonical(sibs[..i + 1])
  {
    var more := sibs[..i + 1];
    assert forall j :: 0 <= j < i ==> more[j] == sibs[..i][j];
    assert more[i] == sibs[i] && (i > 0 ==> more[i - 1] == sibs[i - 1]);
  }

  method ExpandSiblings(proof: OwnerPathProof) returns (r: Result<seq<Commitment>, OwnerProofError>)
    ensures r.Ok? <==> Canonical(proof.siblings)
    ensures r.Ok? ==> r.value == Expanded(proof.siblings)
  {
    var sibs := proof.siblings;
    if |sibs| > DEPTH {
      if Canonical(sibs) {
        CanonicalDepths(sibs, DEPTH);
      }
      return Err(Invalid);
    }
    var siblings := seq(DEPTH, _ => EMPTY);
    var previous: Option<nat> := None;
    assert sibs[..0] == [];
    for i := 0 to |sibs|
      invariant Canonical(sibs[..i])
      invariant siblings == Expanded(sibs[..i])
      invariant previous == if i == 0 then None else Some(sibs[i - 1].depth)
    {
      var sibling := sibs[i];
      CanonicalStep(sibs, i);
      if sibling.depth >= DEPTH
        || (previous.Some? && sibling.depth <= previous.value)
        || sibling.commitment.count == 0
        || !WellFormed(sibling.commitment)
      {
        return Err(Invalid);
      }
      assert sibs[..i + 1] == sibs[..i] + [sibling];
      ExpandedSnoc(sibs[..i], sibling);
      siblings := siblings[sibling.depth := sibling.commitment];
      previous := Some(sibling.depth);
    }
    assert sibs[..|sibs|] == sibs;
    return Ok(siblings);
  }

  // ---------- Climbing from a leaf to the root ----------

  datatype Climbed = Climbed(commitment: Commitment, rank: nat)

  // The state after the levels DEPTH-1 .. d have been folded in.
  function Climb(key: Key, siblings: seq<Commitment>, leaf: Commitment, d: nat): Result<Climbed, OwnerProofError>
    requires d <= DEPTH == |siblings|
    decreases |siblings| - d
  {
    if d == DEPTH then Ok(Climbed(leaf, 0))
    else
      var below :- Climb(key, siblings, leaf, d + 1);
      if key[d] then
        if below.rank + siblings[d].count > U64_MAX then Err(Invalid)
        else
          var c :- Combine(siblings[d], below.commitment);
          Ok(Climbed(c, below.rank + siblings[d].count))
      else
        var c :- Combine(below.commitment, siblings[d]);
        Ok(Climbed(c, below.rank))
  }

  function PathResult(scope: Scope, key: Key, proof: OwnerPathProof): Result<Climbed, OwnerProofError> {
    if !Canonical(proof.siblings) then Err(Invalid)
    else
      var leaf :- LeafCommit(scope, key, proof.leaf);
      Climb(key, Expanded(proof.siblings), leaf, 0)
  }

  // A path is refused in one way only.
  lemma {:induction false} ClimbInvalid(key: Key, siblings: seq<Commitment>, leaf: Commitment, d: nat)
    requires d <= DEPTH == |siblings|
    ensures Climb(key, siblings, leaf, d).Err? ==> Climb(key, siblings, leaf, d) == Err(Invalid)
    decreases |siblings| - d
  {
    if d < DEPTH {
      ClimbInvalid(key, siblings, leaf, d + 1);
    }
  }

  lemma {:induction false} PathInvalid(scope: Scope, key: Key, proof: OwnerPathProof)
    ensures PathResult(scope, key, proof).Err? ==> PathResult(scope, key, proof) == Err(Invalid)
  {
    if Canonical(proof.siblings) && LeafCommit(scope, key, proof.leaf).Ok? {
      ClimbInvalid(key, Expanded(proof.siblings), LeafCommit(scope, key, proof.leaf).value, 0);
    }
  }

  lemma {:induction false} ExpandedWellFormed(sibs: seq<OwnerSibling>)
    requires Canonical(sibs)
    ensures AllWellFormed(Expanded(sibs))
  {
    if sibs != [] {
      ExpandedWellFormed(sibs[..|sibs| - 1]);
    }
  }

  lemma {:induction false} ClimbPropagates(key: Key, siblings: seq<Commitment>, leaf: Commitment, d: nat, e: nat)
    requires d <= e <= DEPTH == |siblings|
    requires Climb(key, siblings, leaf, e).Err?
    ensures Climb(key, siblings, leaf, d) == Climb(key, siblings, leaf, e)
    decreases e - d
  {
    if d < e {
      ClimbPropagates(key, siblings, leaf, d + 1, e);
    }
  }

  method VerifyPath(scope: Scope, key: Key, proof: OwnerPathProof) returns (r: Result<Climbed, OwnerProofError>)
    ensures r == PathResult(scope, key, proof)
  {
    var expanded := ExpandSiblings(proof);
    if expanded.Err? {
      return Err(Invalid);
    }
    var siblings := expanded.value;
    var start := LeafCommit(scope, key, proof.leaf);
    if start.Err? {
      return Err(start.error);
    }
    var current: Commitment, rank: nat, depth: nat := start.value, 0, DEPTH;
    while depth > 0
      invariant depth <= DEPTH
      invariant Climb(key, siblings, start.value, depth) == Ok(Climbed(current, rank))
    {
      depth := depth - 1;
      var sibling := siblings[depth];
      ExpandedWellFormed(proof.siblings);
      if !WellFormed(sibling) {
        return Err(Invalid);
      }
      var next: Result<Commitment, OwnerProofError>;
      if key[depth] {
        if rank + sibling.count > U64_MAX {
          ClimbPropagates(key, siblings, start.value, 0, depth);
          return Err(Invalid);
        }
        rank := rank + sibling.count;
        next := Combine(sibling, current);
      } else {
        next := Combine(current, sibling);
      }
      if next.Err? {
        ClimbPropagates(key, siblings, start.value, 0, depth);
        return Err(next.error);
      }
      current := next.value;
    }
    return Ok(Climbed(current, rank));
  }

  // ---------- Soundness ----------

  // A commitment opens in one way only.
  lemma {:induction false} JoinInjective(a: Commitment, b: Commitment, c: Commitment, d: Commitment)
    requires WellFormed(a) && WellFormed(b) && WellFormed(c) && WellFormed(d)
    requires Join(a, b).hash == Join(c, d).hash
    ensures a == c && b == d
  {
  }

  ghost function Oriented(bit: bool, current: Commitment, sibling: Commitment): Commitment {
    if bit then Join(sibling, current) else Join(current, sibling)
  }

  lemma {:induction false} ClimbStep(key: Key, siblings: seq<Commitment>, leaf: Commitment, d: nat)
    requires d < DEPTH == |siblings|
    requires Climb(key, siblings, leaf, d).Ok?
    ensures Climb(key, siblings, leaf, d + 1).Ok?
    ensures Climb(key, siblings, leaf, d).value.commitment
            == Oriented(key[d], Climb(key, siblings, leaf, d + 1).value.commitment, siblings[d])
    ensures Climb(key, siblings, leaf, d).value.rank
            == Climb(key, siblings, leaf, d + 1).value.rank + if key[d] then siblings[d].count else 0
  {
  }

  lemma {:induction false} ClimbWellFormed(key: Key, siblings: seq<Commitment>, leaf: Commitment, d: nat)
    requires d <= DEPTH == |siblings|
    requires AllWellFormed(siblings) && WellFormed(leaf)
    requires Climb(key, siblings, leaf, d).Ok?
    ensures WellFormed(Climb(key, siblings, leaf, d).value.commitment)
    decreases DEPTH - d
  {
    if d < DEPTH {
      ClimbWellFormed(key, siblings, leaf, d + 1);
    }
  }

  // One level of a climb that reaches the true commitment: the sibling and the
  // commitment below are the true ones.
  lemma {:induction false} OpenLevel(
    scope: Scope, m: Entries, p: Prefix, bit: bool, below: Commitment, sibling: Commitment)
    requires |p| < DEPTH && WellFormed(below) && WellFormed(sibling)
    requires Node(scope, m, p).hash == Oriented(bit, below, sibling).hash
    ensures below == Node(scope, m, p + [bit])
    ensures sibling == Node(scope, m, p + [!bit])
  {
    NodeWellFormed(scope, m, p + [false]);
    NodeWellFormed(scope, m, p + [true]);
    var l, r := if bit then sibling else below, if bit then below else sibling;
    JoinInjective(l, r, Node(scope, m, p + [false]), Node(scope, m, p + [true]));
  }

  ghost function Sibling(scope: Scope, m: Entries, key: Key, d: nat): Commitment
    requires d < DEPTH
  {
    Node(scope, m, key[..d] + [!key[d]])
  }

  lemma {:induction false} LeftOfStep(scope: Scope, m: Entries, key: Key, d: nat)
    requires d < DEPTH
    ensures LeftOf(m, key, d) == LeftOf(m, key, d + 1) + if key[d] then Sibling(scope, m, key, d).count else 0
  {
    if key[d] {
      NodeTotals(scope, m, key[..d] + [false]);
    }
  }

  lemma {:induction false} SoundLevel(
    scope: Scope, m: Entries, key: Key, siblings: seq<Commitment>, leaf: Commitment, d: nat)
    requires d < DEPTH == |siblings|
    requires AllWellFormed(siblings) && WellFormed(leaf)
    requires Climb(key, siblings, leaf, d).Ok?
    requires Climb(key, siblings, leaf, d).value.commitment.hash == Node(scope, m, key[..d]).hash
    ensures Climb(key, siblings, leaf, d + 1).Ok?
    ensures Climb(key, siblings, leaf, d + 1).value.commitment == Node(scope, m, key[..d + 1])
    ensures Climb(key, siblings, leaf, d).value.rank - Climb(key, siblings, leaf, d + 1).value.rank
            == LeftOf(m, key, d) - LeftOf(m, key, d + 1)
  {
    ClimbStep(key, siblings, leaf, d);
    ClimbWellFormed(key, siblings, leaf, d + 1);
    OpenLevel(scope, m, key[..d], key[d], Climb(key, siblings, leaf, d + 1).value.commitment, siblings[d]);
    TakeNext(key, d);
    LeftOfStep(scope, m, key, d);
  }

  // If a climb reaches the true commitment at depth d, it started at the true leaf
  // and counted exactly the keys to the left of the path.
  lemma {:induction false} ClimbSound(
    scope: Scope, m: Entries, key: Key, siblings: seq<Commitment>, leaf: Commitment, d: nat)
    requires d <= DEPTH == |siblings|
    requires AllWellFormed(siblings) && WellFormed(leaf)
    requires Climb(key, siblings, leaf, d).Ok?
    requires Climb(key, siblings, leaf, d).value.commitment.hash == Node(scope, m, key[..d]).hash
    ensures leaf.hash == LeafNodeCommit(scope, key, Lookup(m, key)).hash
    ensures Climb(key, siblings, leaf, d).value.rank == LeftOf(m, key, d)
    decreases DEPTH - d
  {
    if d == DEPTH {
      assert key[..d] == key;
    } else {
      SoundLevel(scope, m, key, siblings, leaf, d);
      ClimbSound(scope, m, key, siblings, leaf, d + 1);
    }
  }

  // Path soundness: an accepted path proves the entry of its key, present or absent,
  // and the number of smaller keys.
  lemma {:induction false} PathSound(scope: Scope, m: Entries, key: Key, proof: OwnerPathProof)
    requires PathResult(scope, key, proof).Ok?
    requires PathResult(scope, key, proof).value.commitment.hash == Root(scope, m).hash
    ensures proof.leaf == Lookup(m, key)
    ensures PathResult(scope, key, proof).value.rank == Rank(m, key)
    ensures PathResult(scope, key, proof).value.rank == |Smaller(m, key)|
  {
    ExpandedWellFormed(proof.siblings);
    assert key[..0] == [];
    ClimbSound(scope, m, key, Expanded(proof.siblings), LeafNodeCommit(scope, key, proof.leaf), 0);
    RankCounts(m, key);
  }

  // ---------- The honest path ----------

  ghost function SiblingVector(scope: Scope, m: Entries, key: Key): (v: seq<Commitment>)
    ensures |v| == DEPTH
    ensures forall i :: 0 <= i < DEPTH ==> v[i] == Sibling(scope, m, key, i)
  {
    seq(DEPTH, i requires 0 <= i < DEPTH => Sibling(scope, m, key, i))
  }

  ghost function HonestPath(scope: Scope, m: Entries, key: Key): OwnerPathProof {
    OwnerPathProof(Lookup(m, key), Compact(SiblingVector(scope, m, key), DEPTH))
  }

  lemma {:induction false} ClimbOver(key: Key, siblings: seq<Commitment>, leaf: Commitment, d: nat, below: Climbed)
    requires d < DEPTH == |siblings|
    requires Climb(key, siblings, leaf, d + 1) == Ok(below)
    requires below.rank + siblings[d].count <= U64_MAX
    requires below.commitment.count + siblings[d].count <= U64_MAX
    requires below.commitment.balance + siblings[d].balance <= U128_MAX
    ensures Climb(key, siblings, leaf, d)
            == Ok(Climbed(Oriented(key[d], below.commitment, siblings[d]),
                          below.rank + if key[d] then siblings[d].count else 0))
  {
  }

  // A node's totals bound the totals of its children.
  lemma {:induction false} NodeChildren(scope: Scope, m: Entries, p: Prefix, bit: bool)
    requires |p| < DEPTH
    ensures Node(scope, m, p) == Oriented(bit, Node(scope, m, p + [bit]), Node(scope, m, p + [!bit]))
    ensures Node(scope, m, p).count == Node(scope, m, p + [bit]).count + Node(scope, m, p + [!bit]).count
    ensures Node(scope, m, p).balance == Node(scope, m, p + [bit]).balance + Node(scope, m, p + [!bit]).balance
  {
    NodeWellFormed(scope, m, p + [false]);
    NodeWellFormed(scope, m, p + [true]);
  }

  lemma {:induction false} HonestLevel(
    scope: Scope, m: Entries, key: Key, siblings: seq<Commitment>, leaf: Commitment, d: nat)
    requires d < DEPTH == |siblings| && siblings[d] == Sibling(scope, m, key, d)
    requires Fits(Node(scope, m, key[..d]))
    requires Climb(key, siblings, leaf, d + 1) == Ok(Climbed(Node(scope, m, key[..d + 1]), LeftOf(m, key, d + 1)))
    ensures Climb(key, siblings, leaf, d) == Ok(Climbed(Node(scope, m, key[..d]), LeftOf(m, key, d)))
  {
    TakeNext(key, d);
    NodeChildren(scope, m, key[..d], key[d]);
    LeftOfBound(scope, m, key, d + 1);
    LeftOfStep(scope, m, key, d);
    ClimbOver(key, siblings, leaf, d, Climbed(Node(scope, m, key[..d + 1]), LeftOf(m, key, d + 1)));
  }

  lemma {:induction false} LeftOfBound(scope: Scope, m: Entries, key: Key, d: nat)
    requires d <= DEPTH
    ensures LeftOf(m, key, d) <= Node(scope, m, key[..d]).count
  {
    NodeTotals(scope, m, key[..d]);
    RankSplits(m, key, d);
  }

  lemma {:induction false} HonestClimb(scope: Scope, m: Entries, key: Key, siblings: seq<Commitment>, d: nat)
    requires d <= DEPTH == |siblings|
    requires forall i :: 0 <= i < DEPTH ==> siblings[i] == Sibling(scope, m, key, i)
    requires Fits(Node(scope, m, key[..d]))
    ensures Climb(key, siblings, LeafNodeCommit(scope, key, Lookup(m, key)), d)
            == Ok(Climbed(Node(scope, m, key[..d]), LeftOf(m, key, d)))
    decreases DEPTH - d
  {
    if d == DEPTH {
      assert key[..d] == key;
    } else {
      assert Fits(Node(scope, m, key[..d + 1])) by {
        TakeNext(key, d);
        NodeChildren(scope, m, key[..d], key[d]);
      }
      HonestClimb(scope, m, key, siblings, d + 1);
      HonestLevel(scope, m, key, siblings, LeafNodeCommit(scope, key, Lookup(m, key)), d);
    }
  }

  ghost predicate ValidEntries(scope: Scope, m: Entries) {
    forall k :: k in m ==> ValidLeaf(scope, m[k])
  }

  // The honest siblings are canonical and expand to the true sibling of every level.
  lemma {:induction false} HonestVector(scope: Scope, m: Entries, key: Key)
    ensures Canonical(HonestPath(scope, m, key).siblings)
    ensures Expanded(HonestPath(scope, m, key).siblings) == SiblingVector(scope, m, key)
  {
    var v := SiblingVector(scope, m, key);
    forall i | 0 <= i < DEPTH
      ensures WellFormed(v[i])
    {
      NodeWellFormed(scope, m, key[..i] + [!key[i]]);
    }
    CompactCanonical(v, DEPTH);
    ExpandCompact(v, DEPTH);
  }

  // Path completeness: the path read off a tree is accepted, with its root and rank.
  lemma {:induction false} PathComplete(scope: Scope, m: Entries, key: Key)
    requires ValidEntries(scope, m) && Fits(Root(scope, m))
    ensures PathResult(scope, key, HonestPath(scope, m, key)) == Ok(Climbed(Root(scope, m), Rank(m, key)))
  {
    HonestVector(scope, m, key);
    assert key[..0] == [];
    HonestClimb(scope, m, key, SiblingVector(scope, m, key), 0);
  }
}
