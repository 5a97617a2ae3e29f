/**
 The authenticated owner tree: commitments, the symbolic hash they are built
 from, and the meaning of a tree as a function of the entries it holds.
 Source: crates/chain/src/owner_proof.rs.
 */
module OwnerTree {
  import opened Wrappers
  import opened BitKeys

  const U64_MAX: nat := 0xFFFF_FFFF_FFFF_FFFF
  const U128_MAX: nat := 0xFFFF_FFFF_FFFF_FFFF_FFFF_FFFF_FFFF_FFFF

  const HOLDING_COIN: nat := 0
  const HOLDING_EDGE: nat := 1
  const HOLDING_DELEGATED: nat := 2

  // The all-zero scope holds owner summaries; every owner has a holdings scope.
  // An owner is named by its 256-bit digest, so distinct owners have distinct keys.
  datatype Scope = Owners | HoldingsOf(owner: Key)

  // SHA-256 without collisions: a digest is the value it was computed from.
  // Foreign digests are the ones with no known preimage of either shape.
  datatype Hash =
    | BranchHash(left: Commitment, right: Commitment)
    | LeafHash(scope: Scope, key: Key, leaf: OwnerLeaf)
    | Foreign(tag: nat)

  datatype Commitment = Commitment(hash: Hash, count: nat, balance: nat)

  datatype OwnerLeaf = Summary(root: Commitment) | Holding(kind: nat, balance: nat)

  datatype OwnerProofError = Invalid | Binding | Page

  type Entries = map<Key, OwnerLeaf>

  // The all-zero digest is one of the foreign ones; which one does not matter.
  type ForeignHash = h: Hash | h.Foreign? witness Foreign(0)
  const ZERO: ForeignHash

  // The default commitment.
  const EMPTY := Commitment(ZERO, 0, 0)

  // What read_commit accepts.
  predicate WellFormed(c: Commitment) {
    (c.count == 0 <==> c.hash == ZERO) && (c.count == 0 ==> c.balance == 0)
  }

  predicate Fits(c: Commitment) {
    c.count <= U64_MAX && c.balance <= U128_MAX
  }

  ghost function Join(left: Commitment, right: Commitment): Commitment {
    if left.count + right.count == 0 then EMPTY
    else Commitment(BranchHash(left, right), left.count + right.count, left.balance + right.balance)
  }

  function Combine(left: Commitment, right: Commitment): (r: Result<Commitment, OwnerProofError>)
    ensures r.Ok? <==> left.count + right.count <= U64_MAX && left.balance + right.balance <= U128_MAX
    ensures r.Ok? ==> r.value == Join(left, right)
  {
    if left.count + right.count > U64_MAX then Err(Invalid)
    else if left.balance + right.balance > U128_MAX then Err(Invalid)
    else if left.count + right.count == 0 then Ok(EMPTY)
    else Ok(Commitment(BranchHash(left, right), left.count + right.count, left.balance + right.balance))
  }

  // Only a held coin carries balance.
  predicate ValidLeaf(scope: Scope, leaf: OwnerLeaf) {
    match leaf
    case Summary(root) => scope.Owners? && root.count != 0
    case Holding(kind, balance) =>
      scope.HoldingsOf? &&
      (kind == HOLDING_COIN || ((kind == HOLDING_EDGE || kind == HOLDING_DELEGATED) && balance == 0))
  }

  function LeafBalance(leaf: OwnerLeaf): nat {
    match leaf
    case Summary(root) => root.balance
    case Holding(_, balance) => balance
  }

  function LeafNodeCommit(scope: Scope, key: Key, leaf: Option<OwnerLeaf>): Commitment {
    match leaf
    case None => EMPTY
    case Some(l) => Commitment(LeafHash(scope, key, l), 1, LeafBalance(l))
  }

  function LeafCommit(scope: Scope, key: Key, leaf: Option<OwnerLeaf>): (r: Result<Commitment, OwnerProofError>)
    ensures r.Ok? <==> (leaf.Some? ==> ValidLeaf(scope, leaf.value))
  {
    if leaf.Some? && !ValidLeaf(scope, leaf.value) then Err(Invalid)
    else Ok(LeafNodeCommit(scope, key, leaf))
  }

  // ---------- The meaning of a tree, computed from scratch ----------

  ghost function Node(scope: Scope, m: Entries, p: Prefix): Commitment
    decreases m, DEPTH - |p|
  {
    if |p| == DEPTH then LeafNodeCommit(scope, p, Lookup(m, p))
    else Join(Node(scope, m, p + [false]), Node(scope, m, p + [true]))
  }

  // A leaf's commitment is the bottom node of every tree that holds the leaf.
  lemma {:induction false} LeafIsNode(scope: Scope, m: Entries, key: Key)
    ensures LeafCommit(scope, key, Lookup(m, key)).Ok? <==> (key in m ==> ValidLeaf(scope, m[key]))
    ensures (key in m ==> ValidLeaf(scope, m[key])) ==>
              LeafCommit(scope, key, Lookup(m, key)) == Ok(Node(scope, m, key))
  {
  }

  ghost function Root(scope: Scope, m: Entries): Commitment {
    Node(scope, m, [])
  }

  // The keys below a prefix, left to right.
  ghost function KeysBelow(m: Entries, p: Prefix): seq<Key>
    decreases m, DEPTH - |p|
  {
    if |p| == DEPTH then if p in m then [p] else []
    else KeysBelow(m, p + [false]) + KeysBelow(m, p + [true])
  }

  ghost function Listing(m: Entries): seq<Key> {
    KeysBelow(m, [])
  }

  ghost function Total(m: Entries, ks: seq<Key>): nat {
    if ks == [] then 0
    else (if ks[0] in m then LeafBalance(m[ks[0]]) else 0) + Total(m, ks[1..])
  }

  lemma {:induction false} TotalAppend(m: Entries, a: seq<Key>, b: seq<Key>)
    ensures Total(m, a + b) == Total(m, a) + Total(m, b)
  {
    if a == [] {
      assert a + b == b;
    } else {
      assert (a + b)[1..] == a[1..] + b;
      TotalAppend(m, a[1..], b);
    }
  }

  lemma {:induction false} NodeWellFormed(scope: Scope, m: Entries, p: Prefix)
    ensures WellFormed(Node(scope, m, p))
    ensures Node(scope, m, p).count == 0 ==> Node(scope, m, p) == EMPTY
    decreases DEPTH - |p|
  {
    if |p| < DEPTH {
      NodeWellFormed(scope, m, p + [false]);
      NodeWellFormed(scope, m, p + [true]);
    }
  }

  // A commitment's count and balance are the number of entries below it and their sum.
  lemma {:induction false} NodeTotals(scope: Scope, m: Entries, p: Prefix)
    ensures Node(scope, m, p).count == |KeysBelow(m, p)|
    ensures Node(scope, m, p).balance == Total(m, KeysBelow(m, p))
    decreases DEPTH - |p|
  {
    if |p| < DEPTH {
      NodeTotals(scope, m, p + [false]);
      NodeTotals(scope, m, p + [true]);
      NodeWellFormed(scope, m, p + [false]);
      NodeWellFormed(scope, m, p + [true]);
      TotalAppend(m, KeysBelow(m, p + [false]), KeysBelow(m, p + [true]));
    }
  }

  // Entries that a prefix does not cover do not influence it.
  lemma {:induction false} NodeLocal(scope: Scope, m: Entries, n: Entries, p: Prefix)
    requires forall k: Key :: Covers(p, k) ==> Lookup(m, k) == Lookup(n, k)
    ensures Node(scope, m, p) == Node(scope, n, p)
    decreases DEPTH - |p|
  {
    if |p| == DEPTH {
      assert Covers(p, p);
    } else {
      forall k: Key
        ensures Covers(p + [false], k) || Covers(p + [true], k) ==> Covers(p, k)
      {
        CoversSplit(p, k);
      }
      NodeLocal(scope, m, n, p + [false]);
      NodeLocal(scope, m, n, p + [true]);
    }
  }

  // KeysBelow lists exactly the entries with that prefix, in increasing order.
  lemma {:induction false} KeysBelowSorted(m: Entries, p: Prefix)
    ensures Increasing(KeysBelow(m, p))
    ensures forall k: Key :: k in KeysBelow(m, p) <==> k in m && Covers(p, k)
    decreases DEPTH - |p|
  {
    if |p| == DEPTH {
      forall k: Key | Covers(p, k)
        ensures k == p
      {
        assert k == k[..DEPTH];
      }
    } else {
      var l, r := KeysBelow(m, p + [false]), KeysBelow(m, p + [true]);
      KeysBelowSorted(m, p + [false]);
      KeysBelowSorted(m, p + [true]);
      forall k: Key
        ensures Covers(p, k) <==> Covers(p + [false], k) || Covers(p + [true], k)
      {
        CoversSplit(p, k);
      }
      forall i, j | 0 <= i < |l| && 0 <= j < |r|
        ensures Less(l[i], r[j])
      {
        assert l[i] in l && r[j] in r;
        LeftBeforeRight(p, l[i], r[j]);
      }
      assert KeysBelow(m, p) == l + r;
    }
  }

  lemma {:induction false} LeftBeforeRight(p: Prefix, a: Key, b: Key)
    requires |p| < DEPTH && Covers(p + [false], a) && Covers(p + [true], b)
    ensures Less(a, b)
  {
    assert a[..|p|] == (p + [false])[..|p|] == p == (p + [true])[..|p|] == b[..|p|];
    assert a[|p|] == (p + [false])[|p|] && b[|p|] == (p + [true])[|p|];
    assert SplitsAt(a, b, |p|);
  }

  // The listing of a tree is the one increasing listing of its keys.
  lemma {:induction false} ListingExact(m: Entries)
    ensures Increasing(Listing(m))
    ensures forall k: Key :: k in Listing(m) <==> k in m
    ensures forall ks: seq<Key> :: Increasing(ks) && (forall k: Key :: k in ks <==> k in m) ==> ks == Listing(m)
  {
    KeysBelowSorted(m, []);
    forall ks: seq<Key> | Increasing(ks) && (forall k: Key :: k in ks <==> k in m)
      ensures ks == Listing(m)
    {
      IncreasingUnique(ks, Listing(m));
    }
  }

  // ---------- Rank ----------

  // Keys to the left of the path to `key`, counted from depth d down.
  ghost function LeftOf(m: Entries, key: Key, d: nat): nat
    requires d <= DEPTH
    decreases |key| - d
  {
    if d == DEPTH then 0
    else LeftOf(m, key, d + 1) + (if key[d] then |KeysBelow(m, key[..d] + [false])| else 0)
  }

  ghost function Rank(m: Entries, key: Key): nat {
    LeftOf(m, key, 0)
  }

  // At a level the key leaves to its right, the whole left subtree is smaller; at a level it
  // leaves to its left, nothing in the right subtree is.
  lemma {:induction false} LevelSplits(m: Entries, key: Key, d: nat)
    requires d < DEPTH
    ensures key[d] ==>
              forall i :: 0 <= i < |KeysBelow(m, key[..d] + [false])| ==> Less(KeysBelow(m, key[..d] + [false])[i], key)
    ensures !key[d] ==>
              forall i :: 0 <= i < |KeysBelow(m, key[..d] + [true])| ==> !Less(KeysBelow(m, key[..d] + [true])[i], key)
  {
    var p := key[..d];
    var l, r := KeysBelow(m, p + [false]), KeysBelow(m, p + [true]);
    assert key[..d + 1] == p + [key[d]];
    KeysBelowSorted(m, p + [false]);
    KeysBelowSorted(m, p + [true]);
    if key[d] {
      forall i | 0 <= i < |l| ensures Less(l[i], key) {
        assert l[i] in l;
        LeftBeforeRight(p, l[i], key);
      }
    } else {
      forall i | 0 <= i < |r| ensures !Less(r[i], key) {
        assert r[i] in r;
        LeftBeforeRight(p, key, r[i]);
        LessAsymmetric(key, r[i]);
      }
    }
  }

  // Rank splits the listing into the keys before `key` and the rest.
  lemma {:induction false} RankSplits(m: Entries, key: Key, d: nat)
    requires d <= DEPTH
    ensures LeftOf(m, key, d) <= |KeysBelow(m, key[..d])|
    ensures forall i :: 0 <= i < LeftOf(m, key, d) ==> Less(KeysBelow(m, key[..d])[i], key)
    ensures forall i :: LeftOf(m, key, d) <= i < |KeysBelow(m, key[..d])| ==> !Less(KeysBelow(m, key[..d])[i], key)
    ensures key in m ==>
              && LeftOf(m, key, d) < |KeysBelow(m, key[..d])|
              && KeysBelow(m, key[..d])[LeftOf(m, key, d)] == key
    decreases DEPTH - d
  {
    if d == DEPTH {
      assert key[..d] == key;
      LessIrreflexive(key);
    } else {
      var p := key[..d];
      RankSplits(m, key, d + 1);
      LevelSplits(m, key, d);
      assert key[..d + 1] == p + [key[d]];
      assert KeysBelow(m, p) == KeysBelow(m, p + [false]) + KeysBelow(m, p + [true]);
    }
  }

  ghost function Smaller(m: Entries, key: Key): set<Key> {
    set k: Key | k in m && Less(k, key)
  }

  // The rank of a key is the number of entries with a smaller key.
  lemma {:induction false} RankCounts(m: Entries, key: Key)
    ensures Rank(m, key) == |Smaller(m, key)|
  {
    var ks, n := Listing(m), Rank(m, key);
    assert key[..0] == [];
    RankSplits(m, key, 0);
    KeysBelowSorted(m, []);
    forall k: Key
      ensures k in Smaller(m, key) <==> k in ks[..n]
    {
      assert Covers([], k);
      if k in Smaller(m, key) {
        var i :| 0 <= i < |ks| && ks[i] == k;
        assert i < n;
      }
    }
    assert Smaller(m, key) == (set k | k in ks[..n]);
    IncreasingDistinct(ks, n);
    DistinctCardinality(ks[..n]);
  }

  lemma {:induction false} IncreasingDistinct(ks: seq<Key>, n: nat)
    requires Increasing(ks) && n <= |ks|
    ensures forall i, j :: 0 <= i < j < n ==> ks[..n][i] != ks[..n][j]
  {
    forall i, j | 0 <= i < j < n
      ensures ks[i] != ks[j]
    {
      LessAsymmetric(ks[i], ks[j]);
    }
  }

  lemma {:induction false} DistinctCardinality(ks: seq<Key>)
    requires forall i, j :: 0 <= i < j < |ks| ==> ks[i] != ks[j]
    ensures |set k | k in ks| == |ks|
  {
    if ks != [] {
      var n := |ks| - 1;
      DistinctCardinality(ks[..n]);
      assert (set k | k in ks) == (set k | k in ks[..n]) + {ks[n]};
    }
  }
}
