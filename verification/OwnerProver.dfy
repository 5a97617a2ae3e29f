/**
 The page prover: a depth-first walk with an explicit stack that skips subtrees
 outside the requested ranks, and the proof that every page it builds verifies.
 Source: crates/chain/src/owner_proof.rs.
 */
module OwnerProver {
  import opened Wrappers
  import opened BitKeys
  import opened OwnerTree
  import opened OwnerPath
  import opened OwnerStore
  import opened OwnerWorld
  import opened OwnerPages

  // ---------- Ranges of a listing ----------

  // The elements of ks whose position, counted from rank, lies in [lo, hi).
  ghost function Clip(ks: seq<Key>, rank: nat, lo: nat, hi: nat): seq<Key> {
    if rank >= hi || rank + |ks| <= lo || lo >= hi then []
    else ks[(if lo > rank then lo - rank else 0)..(if hi - rank < |ks| then hi - rank else |ks|)]
  }

  lemma {:induction false} ClipAppend(a: seq<Key>, b: seq<Key>, rank: nat, lo: nat, hi: nat)
    ensures Clip(a + b, rank, lo, hi) == Clip(a, rank, lo, hi) + Clip(b, rank + |a|, lo, hi)
  {
  }

  // ---------- The walk ----------

  datatype Frame = Frame(key: Key, depth: nat, rank: nat, commit: Commitment)

  ghost predicate GoodFrame(f: Frame, scope: Scope, m: Entries) {
    && f.depth <= DEPTH
    && (forall i :: f.depth <= i < DEPTH ==> !f.key[i])
    && f.commit == Node(scope, m, f.key[..f.depth])
    && f.rank + f.commit.count <= Root(scope, m).count
  }

  ghost predicate GoodStack(stack: seq<Frame>, scope: Scope, m: Entries) {
    forall i :: 0 <= i < |stack| ==> GoodFrame(stack[i], scope, m)
  }

  ghost predicate InDepth(stack: seq<Frame>) {
    forall i :: 0 <= i < |stack| ==> stack[i].depth <= DEPTH
  }

  // The keys one frame contributes to the requested range.
  ghost function Wanted(f: Frame, m: Entries, lo: nat, hi: nat): seq<Key>
    requires f.depth <= DEPTH
  {
    Clip(KeysBelow(m, f.key[..f.depth]), f.rank, lo, hi)
  }

  // The keys the stack still has to emit, top frame first.
  ghost function Pending(stack: seq<Frame>, m: Entries, lo: nat, hi: nat): seq<Key>
    requires InDepth(stack)
  {
    if stack == [] then []
    else Wanted(stack[|stack| - 1], m, lo, hi) + Pending(stack[..|stack| - 1], m, lo, hi)
  }

  lemma {:induction false} PendingPush(stack: seq<Frame>, f: Frame, m: Entries, lo: nat, hi: nat)
    requires InDepth(stack) && f.depth <= DEPTH
    ensures InDepth(stack + [f])
    ensures Pending(stack + [f], m, lo, hi) == Wanted(f, m, lo, hi) + Pending(stack, m, lo, hi)
  {
    assert (stack + [f])[..|stack|] == stack;
  }

  // Nodes of a full subtree, as a bound on the steps left.
  ghost function Steps(key: Key, d: nat): nat
    requires d <= DEPTH
    decreases |key| - d
  {
    if d == DEPTH then 1 else 1 + 2 * Steps(key, d + 1)
  }

  lemma {:induction false} StepsKey(a: Key, b: Key, d: nat)
    requires d <= DEPTH
    ensures Steps(a, d) == Steps(b, d)
    decreases |a| - d
  {
    if d < DEPTH {
      StepsKey(a, b, d + 1);
    }
  }

  ghost function Work(stack: seq<Frame>): nat
    requires InDepth(stack)
  {
    if stack == [] then 0
    else Work(stack[..|stack| - 1]) + Steps(stack[|stack| - 1].key, stack[|stack| - 1].depth)
  }

  lemma {:induction false} WorkPush(stack: seq<Frame>, f: Frame)
    requires InDepth(stack) && f.depth <= DEPTH
    ensures InDepth(stack + [f])
    ensures Work(stack + [f]) == Work(stack) + Steps(f.key, f.depth)
  {
    assert (stack + [f])[..|stack|] == stack;
  }

  // ---------- One step of the walk ----------

  ghost function LeftChild(f: Frame, scope: Scope, m: Entries): Frame
    requires f.depth < DEPTH
  {
    Frame(f.key, f.depth + 1, f.rank, Node(scope, m, f.key[..f.depth] + [false]))
  }

  ghost function RightChild(f: Frame, scope: Scope, m: Entries): Frame
    requires f.depth < DEPTH
  {
    Frame(f.key[f.depth := true], f.depth + 1, f.rank + Node(scope, m, f.key[..f.depth] + [false]).count,
          Node(scope, m, f.key[..f.depth] + [true]))
  }

  lemma {:induction false} ChildPrefixes(f: Frame, scope: Scope, m: Entries)
    requires GoodFrame(f, scope, m) && f.depth < DEPTH
    ensures LeftChild(f, scope, m).key[..f.depth + 1] == f.key[..f.depth] + [false]
    ensures RightChild(f, scope, m).key[..f.depth + 1] == f.key[..f.depth] + [true]
  {
    TakeNext(f.key, f.depth);
    TakeNext(f.key[f.depth := true], f.depth);
  }

  lemma {:induction false} ChildrenGood(f: Frame, scope: Scope, m: Entries)
    requires GoodFrame(f, scope, m) && f.depth < DEPTH
    ensures GoodFrame(LeftChild(f, scope, m), scope, m)
    ensures GoodFrame(RightChild(f, scope, m), scope, m)
  {
    ChildPrefixes(f, scope, m);
    NodeChildren(scope, m, f.key[..f.depth], false);
  }

  lemma {:induction false} ChildrenWanted(f: Frame, scope: Scope, m: Entries, lo: nat, hi: nat)
    requires GoodFrame(f, scope, m) && f.depth < DEPTH
    ensures Wanted(f, m, lo, hi)
            == Wanted(LeftChild(f, scope, m), m, lo, hi) + Wanted(RightChild(f, scope, m), m, lo, hi)
  {
    ChildPrefixes(f, scope, m);
    var p := f.key[..f.depth];
    NodeTotals(scope, m, p + [false]);
    ClipAppend(KeysBelow(m, p + [false]), KeysBelow(m, p + [true]), f.rank, lo, hi);
  }

  lemma {:induction false} PushTwo(rest: seq<Frame>, r: Frame, l: Frame, m: Entries, lo: nat, hi: nat)
    requires InDepth(rest) && r.depth <= DEPTH && l.depth <= DEPTH
    ensures InDepth(rest + [r] + [l])
    ensures Pending(rest + [r] + [l], m, lo, hi) ==
        Wanted(l, m, lo, hi) + Wanted(r, m, lo, hi) + Pending(rest, m, lo, hi)
    ensures Work(rest + [r] + [l]) == Work(rest) + Steps(r.key, r.depth) + Steps(l.key, l.depth)
  {
    PendingPush(rest, r, m, lo, hi);
    PendingPush(rest + [r], l, m, lo, hi);
    WorkPush(rest, r);
    WorkPush(rest + [r], l);
  }

  lemma {:induction false} ChildrenSteps(f: Frame, scope: Scope, m: Entries)
    requires f.depth < DEPTH
    ensures Steps(f.key, f.depth + 1) + Steps(f.key[f.depth := true], f.depth + 1) < Steps(f.key, f.depth)
  {
    StepsKey(f.key, f.key[f.depth := true], f.depth + 1);
  }

  // Replacing a frame by its children keeps the pending keys and leaves less work.
  lemma {:induction false} Descend(
    rest: seq<Frame>, f: Frame, scope: Scope, m: Entries, lo: nat, hi: nat, stack: seq<Frame>)
    requires GoodStack(rest, scope, m) && GoodFrame(f, scope, m) && f.depth < DEPTH
    requires stack == rest + [RightChild(f, scope, m)] + [LeftChild(f, scope, m)]
    ensures GoodStack(stack, scope, m)
    ensures Pending(stack, m, lo, hi) == Wanted(f, m, lo, hi) + Pending(rest, m, lo, hi)
    ensures Work(stack) < Work(rest) + Steps(f.key, f.depth)
  {
    ChildrenGood(f, scope, m);
    ChildrenWanted(f, scope, m, lo, hi);
    ChildrenSteps(f, scope, m);
    PushTwo(rest, RightChild(f, scope, m), LeftChild(f, scope, m), m, lo, hi);
  }

  lemma {:induction false} NothingWanted(f: Frame, scope: Scope, m: Entries, lo: nat, hi: nat)
    requires GoodFrame(f, scope, m)
    requires f.commit.count == 0 || f.rank >= hi || f.rank + f.commit.count <= lo
    ensures Wanted(f, m, lo, hi) == []
  {
    NodeTotals(scope, m, f.key[..f.depth]);
  }

  lemma {:induction false} LeafWanted(f: Frame, scope: Scope, m: Entries, lo: nat, hi: nat)
    requires GoodFrame(f, scope, m) && f.depth == DEPTH
    requires f.commit.count != 0 && f.rank < hi && f.rank + f.commit.count > lo && lo < hi
    ensures Wanted(f, m, lo, hi) == [f.key]
  {
    assert f.key[..DEPTH] == f.key;
  }

  ghost function HonestHoldings(scope: Scope, m: Entries, ks: seq<Key>): seq<HoldingProof> {
    seq(|ks|, i requires 0 <= i < |ks| => HoldingProof(ks[i], HonestPath(scope, m, ks[i])))
  }

  lemma {:induction false} HonestAppend(scope: Scope, m: Entries, a: seq<Key>, b: seq<Key>)
    ensures HonestHoldings(scope, m, a + b) == HonestHoldings(scope, m, a) + HonestHoldings(scope, m, b)
  {
  }

  ghost predicate Emitting(emitted: seq<Key>, stack: seq<Frame>, scope: Scope, m: Entries, lo: nat, hi: nat) {
    && lo <= hi <= |Listing(m)|
    && GoodStack(stack, scope, m)
    && emitted + Pending(stack, m, lo, hi) == Listing(m)[lo..hi]
  }

  lemma {:induction false} ClipAll(ks: seq<Key>, lo: nat, hi: nat)
    requires lo <= hi <= |ks|
    ensures Clip(ks, 0, lo, hi) == ks[lo..hi]
  {
  }

  lemma {:induction false} PendingOne(f: Frame, m: Entries, lo: nat, hi: nat)
    requires f.depth <= DEPTH
    ensures InDepth([f]) && Pending([f], m, lo, hi) == Wanted(f, m, lo, hi)
  {
    assert [] + [f] == [f];
    PendingPush([], f, m, lo, hi);
  }

  lemma {:induction false} EmitStart(f: Frame, scope: Scope, m: Entries, lo: nat, hi: nat)
    requires f.depth == 0 && f.rank == 0 && f.commit == Root(scope, m) && (forall i :: 0 <= i < DEPTH ==> !f.key[i])
    requires lo <= hi <= Root(scope, m).count
    ensures Emitting([], [f], scope, m, lo, hi)
  {
    assert f.key[..0] == [];
    assert lo <= hi <= |Listing(m)| by {
      NodeTotals(scope, m, []);
    }
    ClipAll(Listing(m), lo, hi);
    PendingOne(f, m, lo, hi);
  }

  lemma {:induction false} EmitDone(emitted: seq<Key>, scope: Scope, m: Entries, lo: nat, hi: nat)
    requires Emitting(emitted, [], scope, m, lo, hi)
    ensures emitted == Listing(m)[lo..hi]
  {
    assert emitted + [] == emitted;
  }

  function Saturate(n: nat): nat {
    Min(n, U64_MAX)
  }

  method Children(tree: MemoryOwnerTree, scope: Scope, f: Frame, ghost m: Entries)
    returns (r: Result<(Frame, Frame), OwnerProofError>)
    requires Holds(tree.nodes, scope, m) && Fits(Root(scope, m))
    requires GoodFrame(f, scope, m) && f.depth < DEPTH
    ensures r == Ok((LeftChild(f, scope, m), RightChild(f, scope, m)))
  {
    DecodeStored(scope, m, f.key[..f.depth]);
    var branch := DecodeBranch(Lookup(tree.nodes, NodeKey(scope, f.key[..f.depth])));
    if branch.Err? {
      return Err(Invalid);
    }
    var (left, right) := branch.value;
    FitsBelow(scope, m, f.key, f.depth);
    NodeChildren(scope, m, f.key[..f.depth], false);
    var joined := Combine(left, right);
    if joined != Ok(f.commit) {
      return Err(Invalid);
    }
    if f.rank + left.count > U64_MAX {
      return Err(Invalid);
    }
    return Ok((Frame(f.key, f.depth + 1, f.rank, left),
               Frame(f.key[f.depth := true], f.depth + 1, f.rank + left.count, right)));
  }

  lemma {:induction false} EmitStep(
    emitted: seq<Key>, rest: seq<Frame>, f: Frame, scope: Scope, m: Entries, lo: nat, hi: nat)
    requires Emitting(emitted, rest + [f], scope, m, lo, hi)
    ensures GoodStack(rest, scope, m) && GoodFrame(f, scope, m)
    ensures Emitting(emitted + Wanted(f, m, lo, hi), rest, scope, m, lo, hi)
    ensures Work(rest + [f]) == Work(rest) + Steps(f.key, f.depth) && Work(rest) < Work(rest + [f])
  {
    var stack := rest + [f];
    assert stack[|rest|] == f;
    forall i | 0 <= i < |rest|
      ensures GoodFrame(rest[i], scope, m)
    {
      assert stack[i] == rest[i];
    }
    PendingPush(rest, f, m, lo, hi);
    WorkPush(rest, f);
  }

  lemma {:induction false} EmitDescend(
    emitted: seq<Key>, rest: seq<Frame>, f: Frame, scope: Scope, m: Entries, lo: nat, hi: nat, stack: seq<Frame>)
    requires Emitting(emitted, rest + [f], scope, m, lo, hi) && f.depth < DEPTH
    requires stack == rest + [RightChild(f, scope, m)] + [LeftChild(f, scope, m)]
    ensures Emitting(emitted, stack, scope, m, lo, hi)
    ensures Work(stack) < Work(rest + [f])
  {
    EmitStep(emitted, rest, f, scope, m, lo, hi);
    Descend(rest, f, scope, m, lo, hi, stack);
  }

  // One iteration: what replaces the popped frame, and the holdings it yields.
  method Visit(tree: MemoryOwnerTree, scope: Scope, f: Frame, offset: nat, end: nat,
               ghost m: Entries, ghost emitted: seq<Key>, ghost rest: seq<Frame>)
    returns (r: Result<(seq<Frame>, seq<HoldingProof>), OwnerProofError>, ghost ks: seq<Key>)
    requires Holds(tree.nodes, scope, m) && Sound(scope, m) && Fits(Root(scope, m))
    requires Emitting(emitted, rest + [f], scope, m, offset, end)
    ensures r.Ok? && r.value.1 == HonestHoldings(scope, m, ks)
    ensures Emitting(emitted + ks, rest + r.value.0, scope, m, offset, end)
    ensures Work(rest + r.value.0) < Work(rest + [f])
  {
    EmitStep(emitted, rest, f, scope, m, offset, end);
    ks := [];
    assert emitted + [] == emitted && rest + [] == rest;
    if f.commit.count == 0 || f.rank >= end || Saturate(f.rank + f.commit.count) <= offset {
      NothingWanted(f, scope, m, offset, end);
      return Ok(([], [])), ks;
    }
    if f.depth == DEPTH {
      LeafWanted(f, scope, m, offset, end);
      var path := tree.HeldPath(scope, f.key, m);
      if path.Err? {
        return Err(Invalid), ks;
      }
      return Ok(([], [HoldingProof(f.key, path.value)])), [f.key];
    }
    var children := Children(tree, scope, f, m);
    if children.Err? {
      return Err(Invalid), ks;
    }
    var pushed := [children.value.1] + [children.value.0];
    assert rest + pushed == rest + [children.value.1] + [children.value.0];
    EmitDescend(emitted, rest, f, scope, m, offset, end, rest + pushed);
    return Ok((pushed, [])), ks;
  }

  // The walk emits exactly the requested ranks of the listing, in order.
  method Walk(tree: MemoryOwnerTree, scope: Scope, root: Commitment, offset: nat, end: nat, ghost m: Entries)
    returns (r: Result<seq<HoldingProof>, OwnerProofError>)
    requires Holds(tree.nodes, scope, m) && Sound(scope, m)
    requires root == Root(scope, m) && Fits(root) && offset <= end <= root.count
    ensures root.count == |Listing(m)|
    ensures r == Ok(HonestHoldings(scope, m, Listing(m)[offset..end]))
  {
    NodeTotals(scope, m, []);
    var holdings: seq<HoldingProof> := [];
    ghost var emitted: seq<Key> := [];
    var stack := [Frame(seq(DEPTH, _ => false), 0, 0, root)];
    EmitStart(stack[0], scope, m, offset, end);
    while stack != []
      invariant Emitting(emitted, stack, scope, m, offset, end)
      invariant holdings == HonestHoldings(scope, m, emitted)
      decreases Work(stack)
    {
      var f, rest := stack[|stack| - 1], stack[..|stack| - 1];
      assert stack == rest + [f];
      var step, ks := Visit(tree, scope, f, offset, end, m, emitted, rest);
      if step.Err? {
        return Err(Invalid);
      }
      stack := rest + step.value.0;
      HonestAppend(scope, m, emitted, ks);
      holdings := holdings + step.value.1;
      emitted := emitted + ks;
    }
    EmitDone(emitted, scope, m, offset, end);
    return Ok(holdings);
  }

  // ---------- Pages ----------

  ghost function PageEnd(m: Entries, offset: nat, limit: nat): nat {
    Min(offset + limit, |Listing(m)|)
  }

  ghost function HonestPage(w: World, owner: Key, offset: nat, limit: nat, afterKey: Option<Key>): OwnerPageProof
    requires offset <= |Listing(HeldBy(w, owner))|
  {
    var scope, m := HoldingsOf(owner), HeldBy(w, owner);
    OwnerPageProof(owner, HonestPath(Owners, Summaries(w), owner), offset, limit,
                   HonestHoldings(scope, m, Listing(m)[offset..PageEnd(m, offset, limit)]),
                   afterKey,
                   if afterKey.Some? then Some(HonestPath(scope, m, afterKey.value)) else None)
  }

  lemma {:induction false} SummaryLeaf(w: World, owner: Key)
    ensures SummaryOf(Lookup(Summaries(w), owner)) == Ok(HoldingsRoot(w, owner))
  {
    EmptyIffCountZero(HoldingsOf(owner), map[]);
  }

  // Fails exactly on an illegal limit or an offset past the end.
  method ProveOwnerPage(tree: MemoryOwnerTree, owner: Key, offset: nat, limit: nat, ghost w: World)
    returns (r: Result<OwnerPageProof, OwnerProofError>)
    requires Represents(tree.nodes, w)
    ensures r.Ok? <==> LegalLimit(limit) && offset <= |Listing(HeldBy(w, owner))|
    ensures r.Err? ==> r.error == Page
    ensures r.Ok? ==> r.value == HonestPage(w, owner, offset, limit, None)
  {
    if limit == 0 || limit > OWNER_PAGE_LIMIT {
      return Err(Page);
    }
    ghost var m := HeldBy(w, owner);
    SummariesSound(w);
    HeldSound(w, owner);
    SummaryLeaf(w, owner);
    NodeTotals(HoldingsOf(owner), m, []);
    assert Holds(tree.nodes, HoldingsOf(owner), m);
    var summary := tree.HeldPath(Owners, owner, Summaries(w));
    if summary.Err? {
      return Err(Page);
    }
    var read := SummaryOf(summary.value.leaf);
    if read.Err? {
      return Err(Page);
    }
    var root := read.value;
    if offset > root.count {
      return Err(Page);
    }
    var end := Min(Saturate(offset + limit), root.count);
    assert end == PageEnd(m, offset, limit);
    var holdings := Walk(tree, HoldingsOf(owner), root, offset, end, m);
    if holdings.Err? {
      return Err(Page);
    }
    return Ok(OwnerPageProof(owner, summary.value, offset, limit, holdings.value, None, None));
  }

  method ProveOwnerPageAfter(tree: MemoryOwnerTree, owner: Key, after: Option<Key>, limit: nat, ghost w: World)
    returns (r: Result<OwnerPageProof, OwnerProofError>)
    requires Represents(tree.nodes, w)
    ensures r.Ok? <==> LegalLimit(limit)
    ensures r.Err? ==> r.error == Page
    ensures Position(HeldBy(w, owner), after) <= |Listing(HeldBy(w, owner))|
    ensures r.Ok? ==> r.value == HonestPage(w, owner, Position(HeldBy(w, owner), after), limit, after)
  {
    if after.None? {
      r := ProveOwnerPage(tree, owner, 0, limit, w);
      return;
    }
    ghost var m := HeldBy(w, owner);
    var key := after.value;
    HeldSound(w, owner);
    PositionSplits(m, key);
    NodeTotals(HoldingsOf(owner), m, []);
    PathComplete(HoldingsOf(owner), m, key);
    assert Holds(tree.nodes, HoldingsOf(owner), m);
    var cursor := tree.HeldPath(HoldingsOf(owner), key, m);
    if cursor.Err? {
      return Err(Page);
    }
    var climbed := VerifyPath(HoldingsOf(owner), key, cursor.value);
    if climbed.Err? {
      return Err(Page);
    }
    var offset := climbed.value.rank + if cursor.value.leaf.Some? then 1 else 0;
    if offset > U64_MAX {
      return Err(Page);
    }
    var page := ProveOwnerPage(tree, owner, offset, limit, w);
    if page.Err? {
      return Err(Page);
    }
    return Ok(page.value.(afterKey := after, afterPath := Some(cursor.value)));
  }

  // ---------- Completeness ----------

  ghost predicate HoldingPasses(owner: Key, summary: Commitment, offset: nat, hs: seq<HoldingProof>, i: nat) {
    i < |hs| && CheckHolding(owner, summary, offset + i, hs[i]).Ok?
  }

  lemma {:induction false} AllPass(owner: Key, summary: Commitment, offset: nat, hs: seq<HoldingProof>, n: nat)
    requires n <= |hs| && forall i :: 0 <= i < n ==> HoldingPasses(owner, summary, offset, hs, i)
    ensures CheckHoldings(owner, summary, offset, hs, n).Ok?
    decreases n
  {
    if n > 0 {
      AllPass(owner, summary, offset, hs, n - 1);
      assert HoldingPasses(owner, summary, offset, hs, n - 1);
    }
  }

  lemma {:induction false} HonestHoldingPasses(
    owner: Key, m: Entries, offset: nat, end: nat, hs: seq<HoldingProof>, i: nat)
    requires ValidEntries(HoldingsOf(owner), m) && Fits(Root(HoldingsOf(owner), m))
    requires offset <= end <= |Listing(m)| && i < end - offset
    requires hs == HonestHoldings(HoldingsOf(owner), m, Listing(m)[offset..end])
    ensures HoldingPasses(owner, Root(HoldingsOf(owner), m), offset, hs, i)
  {
    var k := Listing(m)[offset + i];
    assert Listing(m)[offset..end][i] == k;
    HonestHoldingAccepted(owner, m, offset + i);
  }

  lemma {:induction false} HonestHoldingsAccepted(owner: Key, m: Entries, offset: nat, end: nat, hs: seq<HoldingProof>)
    requires ValidEntries(HoldingsOf(owner), m) && Fits(Root(HoldingsOf(owner), m))
    requires offset <= end <= |Listing(m)|
    requires hs == HonestHoldings(HoldingsOf(owner), m, Listing(m)[offset..end])
    ensures CheckHoldings(owner, Root(HoldingsOf(owner), m), offset, hs, |hs|).Ok?
  {
    forall i | 0 <= i < |hs| ensures HoldingPasses(owner, Root(HoldingsOf(owner), m), offset, hs, i) {
      HonestHoldingPasses(owner, m, offset, end, hs, i);
    }
    AllPass(owner, Root(HoldingsOf(owner), m), offset, hs, |hs|);
  }

  lemma {:induction false} HonestHoldingAccepted(owner: Key, m: Entries, i: nat)
    requires ValidEntries(HoldingsOf(owner), m) && Fits(Root(HoldingsOf(owner), m))
    requires i < |Listing(m)|
    ensures CheckHolding(owner, Root(HoldingsOf(owner), m), i,
                         HoldingProof(Listing(m)[i], HonestPath(HoldingsOf(owner), m, Listing(m)[i]))).Ok?
  {
    var k := Listing(m)[i];
    ListingExact(m);
    assert k in Listing(m);
    PathComplete(HoldingsOf(owner), m, k);
    RankOfListed(m, i);
  }

  lemma {:induction false} RankOfListed(m: Entries, i: nat)
    requires i < |Listing(m)|
    ensures Rank(m, Listing(m)[i]) == i
  {
    var k := Listing(m)[i];
    ListingExact(m);
    assert k in Listing(m);
    assert k[..0] == [];
    RankSplits(m, k, 0);
    IncreasingDistinct(Listing(m), |Listing(m)|);
    assert Listing(m)[..|Listing(m)|] == Listing(m);
  }

  // A page whose parts check is accepted.
  lemma {:induction false} Assemble(
    root: Hash, owner: Key, proof: OwnerPageProof, climbed: Climbed, summary: Commitment)
    requires proof.owner == owner && LegalLimit(proof.limit)
    requires PathResult(Owners, owner, proof.summary) == Ok(climbed) && climbed.commitment.hash == root
    requires SummaryOf(proof.summary.leaf) == Ok(summary)
    requires proof.offset <= summary.count && |proof.holdings| == Min(proof.limit, summary.count - proof.offset)
    requires CheckHoldings(owner, summary, proof.offset, proof.holdings, |proof.holdings|).Ok?
    ensures PageResult(root, owner, proof.offset, proof.limit, proof) == Ok(summary)
  {
  }

  lemma {:induction false} HonestSummary(w: World, owner: Key)
    requires ValidWorld(w) && FitsWorld(w)
    ensures PathResult(Owners, owner, HonestPath(Owners, Summaries(w), owner))
            == Ok(Climbed(OwnersRoot(w), Rank(Summaries(w), owner)))
  {
    SummariesSound(w);
    PathComplete(Owners, Summaries(w), owner);
  }

  lemma {:induction false} HonestSlice(w: World, owner: Key, offset: nat, limit: nat, hs: seq<HoldingProof>)
    requires ValidWorld(w) && FitsWorld(w) && offset <= |Listing(HeldBy(w, owner))|
    requires hs == HonestHoldings(HoldingsOf(owner), HeldBy(w, owner),
                                  Listing(HeldBy(w, owner))[offset..PageEnd(HeldBy(w, owner), offset, limit)])
    ensures offset <= HoldingsRoot(w, owner).count && |hs| == Min(limit, HoldingsRoot(w, owner).count - offset)
    ensures CheckHoldings(owner, HoldingsRoot(w, owner), offset, hs, |hs|).Ok?
  {
    var m := HeldBy(w, owner);
    assert HoldingsRoot(w, owner).count == |Listing(m)| by {
      NodeTotals(HoldingsOf(owner), m, []);
    }
    HeldSound(w, owner);
    HonestHoldingsAccepted(owner, m, offset, PageEnd(m, offset, limit), hs);
  }

  // Page completeness: every page the prover builds at a legal offset and limit is
  // accepted against the root of the world it was read from.
  lemma {:induction false} PageComplete(w: World, owner: Key, offset: nat, limit: nat, afterKey: Option<Key>)
    requires ValidWorld(w) && FitsWorld(w)
    requires LegalLimit(limit) && offset <= |Listing(HeldBy(w, owner))|
    ensures PageResult(OwnersRoot(w).hash, owner, offset, limit, HonestPage(w, owner, offset, limit, afterKey))
            == Ok(HoldingsRoot(w, owner))
  {
    var page := HonestPage(w, owner, offset, limit, afterKey);
    HonestSummary(w, owner);
    HonestSlice(w, owner, offset, limit, page.holdings);
    SummaryLeaf(w, owner);
    Assemble(OwnersRoot(w).hash, owner, page, Climbed(OwnersRoot(w), Rank(Summaries(w), owner)),
        HoldingsRoot(w, owner));
  }

  lemma {:induction false} CursorComplete(w: World, owner: Key, key: Key, page: OwnerPageProof)
    requires ValidWorld(w) && FitsWorld(w)
    requires page.afterKey == Some(key) && page.afterPath == Some(HonestPath(HoldingsOf(owner), HeldBy(w, owner), key))
    requires page.summary.leaf == Lookup(Summaries(w), owner)
    ensures CursorOffset(owner, Some(key), page) == Ok(Position(HeldBy(w, owner), Some(key)))
  {
    var m := HeldBy(w, owner);
    assert Fits(HoldingsRoot(w, owner)) && ValidEntries(HoldingsOf(owner), m) by {
      HeldSound(w, owner);
    }
    assert Position(m, Some(key)) <= HoldingsRoot(w, owner).count by {
      PositionSplits(m, key);
      NodeTotals(HoldingsOf(owner), m, []);
    }
    PathComplete(HoldingsOf(owner), m, key);
    SummaryLeaf(w, owner);
  }

  lemma {:induction false} AfterComplete(w: World, owner: Key, after: Option<Key>, limit: nat)
    requires ValidWorld(w) && FitsWorld(w) && LegalLimit(limit)
    ensures Position(HeldBy(w, owner), after) <= |Listing(HeldBy(w, owner))|
    ensures AfterResult(OwnersRoot(w).hash, owner, after, limit,
                        HonestPage(w, owner, Position(HeldBy(w, owner), after), limit, after))
            == Ok(HoldingsRoot(w, owner))
  {
    var m := HeldBy(w, owner);
    if after.Some? {
      PositionSplits(m, after.value);
      CursorComplete(w, owner, after.value, HonestPage(w, owner, Position(m, after), limit, after));
    }
    PageComplete(w, owner, Position(m, after), limit, after);
  }
}
