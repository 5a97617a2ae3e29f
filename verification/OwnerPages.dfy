/**
 Rank-authenticated holdings pages: the verifier, and what an accepted page proves.
 Source: crates/chain/src/owner_proof.rs.
 */
module OwnerPages {
  import opened Wrappers
  import opened BitKeys
  import opened OwnerTree
  import opened OwnerPath
  import opened OwnerWorld

  const OWNER_PAGE_LIMIT: nat := 32

  datatype HoldingProof = HoldingProof(objectId: Key, path: OwnerPathProof)

  datatype OwnerPageProof = OwnerPageProof(
    owner: Key,
    summary: OwnerPathProof,
    offset: nat,
    limit: nat,
    holdings: seq<HoldingProof>,
    afterKey: Option<Key>,
    afterPath: Option<OwnerPathProof>)

  function Min(a: nat, b: nat): nat {
    if a < b then a else b
  }

  predicate LegalLimit(limit: nat) {
    limit != 0 && limit <= OWNER_PAGE_LIMIT
  }

  // ---------- The verifier ----------

  function SummaryOf(leaf: Option<OwnerLeaf>): Result<Commitment, OwnerProofError> {
    match leaf
    case None => Ok(EMPTY)
    case Some(Summary(root)) => Ok(root)
    case Some(Holding(_, _)) => Err(Invalid)
  }

  function CheckHolding(owner: Key, summary: Commitment, rank: nat, h: HoldingProof): Result<(), OwnerProofError> {
    if !(h.path.leaf.Some? && h.path.leaf.value.Holding?) then Err(Invalid)
    else
      var actual :- PathResult(HoldingsOf(owner), h.objectId, h.path);
      if actual.commitment != summary || actual.rank != rank then Err(Binding) else Ok(())
  }

  // The verdict on the first n holdings, in order.
  function CheckHoldings(
    owner: Key, summary: Commitment, offset: nat, hs: seq<HoldingProof>, n: nat): Result<(), OwnerProofError>
    requires n <= |hs|
    decreases |hs|, n
  {
    if n == 0 then Ok(())
    else
      var _ :- CheckHoldings(owner, summary, offset, hs, n - 1);
      CheckHolding(owner, summary, offset + (n - 1), hs[n - 1])
  }

  function PageResult(
    root: Hash, owner: Key, offset: nat, limit: nat, proof: OwnerPageProof): Result<Commitment, OwnerProofError>
  {
    if proof.owner != owner || proof.offset != offset || proof.limit != limit then Err(Binding)
    else if !LegalLimit(limit) then Err(Page)
    else
      var climbed :- PathResult(Owners, owner, proof.summary);
      if climbed.commitment.hash != root then Err(Binding)
      else
        var summary :- SummaryOf(proof.summary.leaf);
        if offset > summary.count || |proof.holdings| != Min(limit, summary.count - offset) then Err(Page)
        else
          var _ :- CheckHoldings(owner, summary, offset, proof.holdings, |proof.holdings|);
          Ok(summary)
  }

  method VerifyOwnerPageAt(root: Hash, owner: Key, offset: nat, limit: nat, proof: OwnerPageProof)
    returns (r: Result<Commitment, OwnerProofError>)
    ensures r == PageResult(root, owner, offset, limit, proof)
  {
    if proof.owner != owner || proof.offset != offset || proof.limit != limit {
      return Err(Binding);
    }
    if limit == 0 || limit > OWNER_PAGE_LIMIT {
      return Err(Page);
    }
    var climbed := VerifyPath(Owners, owner, proof.summary);
    if climbed.Err? {
      return Err(climbed.error);
    }
    if climbed.value.commitment.hash != root {
      return Err(Binding);
    }
    var read := SummaryOf(proof.summary.leaf);
    if read.Err? {
      return Err(read.error);
    }
    var summary := read.value;
    if offset > summary.count || |proof.holdings| != Min(limit, summary.count - offset) {
      return Err(Page);
    }
    var verdict := VerifyHoldings(owner, summary, offset, proof.holdings);
    if verdict.Err? {
      return Err(verdict.error);
    }
    return Ok(summary);
  }

  method VerifyHoldings(owner: Key, summary: Commitment, offset: nat, holdings: seq<HoldingProof>)
    returns (r: Result<(), OwnerProofError>)
    ensures r == CheckHoldings(owner, summary, offset, holdings, |holdings|)
  {
    for position := 0 to |holdings|
      invariant CheckHoldings(owner, summary, offset, holdings, position).Ok?
    {
      var verdict := VerifyHolding(owner, summary, offset + position, holdings[position]);
      CheckNext(owner, summary, offset, holdings, position);
      if verdict.Err? {
        FirstRefusal(owner, summary, offset, holdings, position + 1, |holdings|);
        return verdict;
      }
    }
    return Ok(());
  }

  lemma {:induction false} CheckNext(owner: Key, summary: Commitment, offset: nat, hs: seq<HoldingProof>, n: nat)
    requires n < |hs| && CheckHoldings(owner, summary, offset, hs, n).Ok?
    ensures CheckHoldings(owner, summary, offset, hs, n + 1) == CheckHolding(owner, summary, offset + n, hs[n])
  {
  }

  method VerifyHolding(owner: Key, summary: Commitment, rank: nat, holding: HoldingProof)
    returns (r: Result<(), OwnerProofError>)
    ensures r == CheckHolding(owner, summary, rank, holding)
  {
    if !(holding.path.leaf.Some? && holding.path.leaf.value.Holding?) {
      return Err(Invalid);
    }
    var actual := VerifyPath(HoldingsOf(owner), holding.objectId, holding.path);
    if actual.Err? {
      return Err(actual.error);
    }
    if actual.value.commitment != summary || actual.value.rank != rank {
      return Err(Binding);
    }
    return Ok(());
  }

  lemma {:induction false} FirstRefusal(
    owner: Key, summary: Commitment, offset: nat, hs: seq<HoldingProof>, n: nat, k: nat)
    requires n <= k <= |hs| && CheckHoldings(owner, summary, offset, hs, n).Err?
    ensures CheckHoldings(owner, summary, offset, hs, k) == CheckHoldings(owner, summary, offset, hs, n)
    decreases k
  {
    if n < k {
      FirstRefusal(owner, summary, offset, hs, n, k - 1);
    }
  }

  function OffsetResult(
    root: Hash, owner: Key, offset: nat, limit: nat, proof: OwnerPageProof): Result<Commitment, OwnerProofError>
  {
    if proof.afterKey.Some? || proof.afterPath.Some? then Err(Binding)
    else PageResult(root, owner, offset, limit, proof)
  }

  // The page offset that an after-key cursor proves.
  function CursorOffset(owner: Key, after: Option<Key>, proof: OwnerPageProof): Result<nat, OwnerProofError> {
    if after.None? && proof.afterKey.None? && proof.afterPath.None? then Ok(0)
    else if after.Some? && proof.afterKey == after && proof.afterPath.Some? then
      var cursor :- PathResult(HoldingsOf(owner), after.value, proof.afterPath.value);
      var summary :- SummaryOf(proof.summary.leaf);
      if cursor.commitment != summary then Err(Binding)
      else
        var offset := cursor.rank + if proof.afterPath.value.leaf.Some? then 1 else 0;
        if offset > U64_MAX then Err(Invalid) else Ok(offset)
    else Err(Binding)
  }

  function AfterResult(
    root: Hash, owner: Key, after: Option<Key>, limit: nat, proof: OwnerPageProof): Result<Commitment, OwnerProofError>
  {
    var offset :- CursorOffset(owner, after, proof);
    PageResult(root, owner, offset, limit, proof)
  }

  method VerifyOwnerPage(root: Hash, owner: Key, offset: nat, limit: nat, proof: OwnerPageProof)
    returns (r: Result<Commitment, OwnerProofError>)
    ensures r == OffsetResult(root, owner, offset, limit, proof)
  {
    if proof.afterKey.Some? || proof.afterPath.Some? {
      return Err(Binding);
    }
    r := VerifyOwnerPageAt(root, owner, offset, limit, proof);
  }

  method VerifyOwnerPageAfter(root: Hash, owner: Key, after: Option<Key>, limit: nat, proof: OwnerPageProof)
    returns (r: Result<Commitment, OwnerProofError>)
    ensures r == AfterResult(root, owner, after, limit, proof)
  {
    var offset: nat := 0;
    if after.Some? && proof.afterKey == after && proof.afterPath.Some? {
      var path := proof.afterPath.value;
      var cursor := VerifyPath(HoldingsOf(owner), after.value, path);
      if cursor.Err? {
        return Err(cursor.error);
      }
      var summary := SummaryOf(proof.summary.leaf);
      if summary.Err? {
        return Err(summary.error);
      }
      if cursor.value.commitment != summary.value {
        return Err(Binding);
      }
      offset := cursor.value.rank + if path.leaf.Some? then 1 else 0;
      if offset > U64_MAX {
        return Err(Invalid);
      }
    } else if !(after.None? && proof.afterKey.None? && proof.afterPath.None?) {
      return Err(Binding);
    }
    r := VerifyOwnerPageAt(root, owner, offset, limit, proof);
  }

  // ---------- Soundness ----------

  ghost predicate ListsFrom(m: Entries, offset: nat, hs: seq<HoldingProof>) {
    && offset + |hs| <= |Listing(m)|
    && forall i :: 0 <= i < |hs| ==>
         hs[i].objectId == Listing(m)[offset + i] && hs[i].path.leaf == Lookup(m, hs[i].objectId)
  }

  // An accepted holding is the listing's entry at its rank.
  lemma {:induction false} HoldingSound(owner: Key, m: Entries, rank: nat, h: HoldingProof)
    requires CheckHolding(owner, Root(HoldingsOf(owner), m), rank, h).Ok?
    ensures rank < |Listing(m)| && h.objectId == Listing(m)[rank] && h.path.leaf == Lookup(m, h.objectId)
  {
    PathSound(HoldingsOf(owner), m, h.objectId, h.path);
    assert h.objectId[..0] == [];
    RankSplits(m, h.objectId, 0);
  }

  lemma {:induction false} EachChecked(
    owner: Key, summary: Commitment, offset: nat, hs: seq<HoldingProof>, n: nat, i: nat)
    requires i < n <= |hs| && CheckHoldings(owner, summary, offset, hs, n).Ok?
    ensures CheckHolding(owner, summary, offset + i, hs[i]).Ok?
    decreases n
  {
    if i < n - 1 {
      EachChecked(owner, summary, offset, hs, n - 1, i);
    }
  }

  lemma {:induction false} HoldingsSound(owner: Key, m: Entries, offset: nat, hs: seq<HoldingProof>)
    requires offset <= |Listing(m)|
    requires CheckHoldings(owner, Root(HoldingsOf(owner), m), offset, hs, |hs|).Ok?
    ensures ListsFrom(m, offset, hs)
  {
    forall i | 0 <= i < |hs|
      ensures offset + i < |Listing(m)|
      ensures hs[i].objectId == Listing(m)[offset + i] && hs[i].path.leaf == Lookup(m, hs[i].objectId)
    {
      EachChecked(owner, Root(HoldingsOf(owner), m), offset, hs, |hs|, i);
      HoldingSound(owner, m, offset + i, hs[i]);
    }
    if hs != [] {
      assert offset + (|hs| - 1) < |Listing(m)|;
    }
  }

  lemma {:induction false} SummarySound(w: World, owner: Key, proof: OwnerPathProof)
    requires PathResult(Owners, owner, proof).Ok?
    requires PathResult(Owners, owner, proof).value.commitment.hash == OwnersRoot(w).hash
    ensures SummaryOf(proof.leaf) == Ok(HoldingsRoot(w, owner))
  {
    PathSound(Owners, Summaries(w), owner, proof);
    EmptyIffCountZero(HoldingsOf(owner), map[]);
  }

  // The true totals of an owner: number of holdings, and the value of its held coins.
  ghost function CoinValue(m: Entries, ks: seq<Key>): nat {
    if ks == [] then 0
    else
      (if ks[0] in m && m[ks[0]].Holding? && m[ks[0]].kind == HOLDING_COIN then m[ks[0]].balance else 0)
      + CoinValue(m, ks[1..])
  }

  lemma {:induction false} TotalIsCoinValue(owner: Key, m: Entries, ks: seq<Key>)
    requires ValidEntries(HoldingsOf(owner), m)
    ensures Total(m, ks) == CoinValue(m, ks)
  {
    if ks != [] {
      TotalIsCoinValue(owner, m, ks[1..]);
    }
  }

  // Page soundness: a page accepted against the root of a world holds exactly the
  // slice of the owner's sorted holdings at its offset, and the returned summary is
  // the true count and spendable balance.
  lemma {:induction false} PageSound(w: World, owner: Key, offset: nat, limit: nat, proof: OwnerPageProof)
    requires ValidWorld(w)
    requires PageResult(OwnersRoot(w).hash, owner, offset, limit, proof).Ok?
    ensures PageResult(OwnersRoot(w).hash, owner, offset, limit, proof).value == HoldingsRoot(w, owner)
    ensures HoldingsRoot(w, owner).count == |Listing(HeldBy(w, owner))|
    ensures HoldingsRoot(w, owner).balance == CoinValue(HeldBy(w, owner), Listing(HeldBy(w, owner)))
    ensures offset <= |Listing(HeldBy(w, owner))|
    ensures |proof.holdings| == Min(limit, |Listing(HeldBy(w, owner))| - offset)
    ensures ListsFrom(HeldBy(w, owner), offset, proof.holdings)
  {
    var m := HeldBy(w, owner);
    SummarySound(w, owner, proof.summary);
    NodeTotals(HoldingsOf(owner), m, []);
    HeldSound(w, owner);
    TotalIsCoinValue(owner, m, Listing(m));
    HoldingsSound(owner, m, offset, proof.holdings);
  }

  // Where the holdings strictly after a cursor begin.
  ghost function Position(m: Entries, after: Option<Key>): nat {
    match after
    case None => 0
    case Some(k) => Rank(m, k) + if k in m then 1 else 0
  }

  lemma {:induction false} PositionSplits(m: Entries, k: Key)
    ensures Position(m, Some(k)) <= |Listing(m)|
    ensures forall i :: 0 <= i < Position(m, Some(k)) ==> !Less(k, Listing(m)[i])
    ensures forall i :: Position(m, Some(k)) <= i < |Listing(m)| ==> Less(k, Listing(m)[i])
  {
    var ks, n := Listing(m), Rank(m, k);
    assert k[..0] == [];
    RankSplits(m, k, 0);
    KeysBelowSorted(m, []);
    LessIrreflexive(k);
    forall i | 0 <= i < n
      ensures !Less(k, ks[i])
    {
      LessAsymmetric(ks[i], k);
    }
    forall i | Position(m, Some(k)) <= i < |ks|
      ensures Less(k, ks[i])
    {
      if k !in m {
        assert Covers([], ks[i]) && ks[i] in ks;
        LessTotal(k, ks[i], 0);
      }
    }
  }

  // After-page soundness: the page starts at the first holding after the cursor,
  // whether or not the cursor itself is still held.
  lemma {:induction false} AfterSound(w: World, owner: Key, after: Option<Key>, limit: nat, proof: OwnerPageProof)
    requires ValidWorld(w)
    requires AfterResult(OwnersRoot(w).hash, owner, after, limit, proof).Ok?
    ensures AfterResult(OwnersRoot(w).hash, owner, after, limit, proof).value == HoldingsRoot(w, owner)
    ensures proof.offset == Position(HeldBy(w, owner), after) <= |Listing(HeldBy(w, owner))|
    ensures |proof.holdings| == Min(limit, |Listing(HeldBy(w, owner))| - proof.offset)
    ensures ListsFrom(HeldBy(w, owner), proof.offset, proof.holdings)
    ensures after.Some? ==> forall i :: 0 <= i < |Listing(HeldBy(w, owner))| ==>
              (Less(after.value, Listing(HeldBy(w, owner))[i]) <==> proof.offset <= i)
  {
    var m := HeldBy(w, owner);
    var offset := CursorOffset(owner, after, proof).value;
    PageSound(w, owner, offset, limit, proof);
    if after.Some? {
      SummarySound(w, owner, proof.summary);
      PathSound(HoldingsOf(owner), m, after.value, proof.afterPath.value);
      PositionSplits(m, after.value);
    }
  }

  // A page is bound to the way it was asked for: by offset it carries no cursor and the very
  // offset, after a key it carries that key and its path.
  lemma {:induction false} RequestBound(
    root: Hash, owner: Key, offset: nat, after: Option<Key>, limit: nat, proof: OwnerPageProof)
    ensures OffsetResult(root, owner, offset, limit, proof).Ok? ==>
              proof.afterKey.None? && proof.afterPath.None? && proof.offset == offset
    ensures AfterResult(root, owner, after, limit, proof).Ok? ==>
              proof.afterKey == after && (proof.afterPath.Some? <==> after.Some?)
    ensures OffsetResult(root, owner, 0, limit, proof).Ok? <==> AfterResult(root, owner, None, limit, proof).Ok?
  {
  }

  // How a page is refused: for another request by its binding, for an illegal limit or for
  // the wrong number of holdings as a page, for holdings that are not the true ones as false.
  lemma {:induction false} PageRefusals(w: World, owner: Key, offset: nat, limit: nat, proof: OwnerPageProof)
    requires ValidWorld(w)
    ensures var r := PageResult(OwnersRoot(w).hash, owner, offset, limit, proof);
            var bound := proof.owner == owner && proof.offset == offset && proof.limit == limit;
            var climbed := PathResult(Owners, owner, proof.summary);
            var n := |Listing(HeldBy(w, owner))|;
            && (!bound ==> r == Err(Binding))
            && (bound && !(1 <= limit <= OWNER_PAGE_LIMIT) ==> r == Err(Page))
            && (bound && 1 <= limit <= OWNER_PAGE_LIMIT && climbed.Ok? ==>
                  if climbed.value.commitment.hash != OwnersRoot(w).hash then r == Err(Binding)
                  else (r == Err(Page) <==> offset > n || |proof.holdings| != Min(limit, n - offset)))
  {
    var climbed := PathResult(Owners, owner, proof.summary);
    if climbed.Ok? && climbed.value.commitment.hash == OwnersRoot(w).hash {
      SummarySound(w, owner, proof.summary);
      NodeTotals(HoldingsOf(owner), HeldBy(w, owner), []);
      NeverPage(owner, SummaryOf(proof.summary.leaf).value, offset, proof.holdings, |proof.holdings|);
    }
  }

  lemma {:induction false} NeverPage(owner: Key, summary: Commitment, offset: nat, hs: seq<HoldingProof>, n: nat)
    requires n <= |hs|
    ensures CheckHoldings(owner, summary, offset, hs, n) != Err(Page)
    decreases n
  {
    if n > 0 {
      NeverPage(owner, summary, offset, hs, n - 1);
      PathInvalid(HoldingsOf(owner), hs[n - 1].objectId, hs[n - 1].path);
    }
  }
}
