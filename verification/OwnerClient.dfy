/**
 The light client's owner listing: pages from an untrusted server, stitched into
 one complete listing at one certified block.
 Source: crates/chain/src/client.rs, with validate_holding of owner_proof.rs and the
 holding rules of owner_index.rs.
 */
module OwnerClient {
  import opened Wrappers
  import opened BitKeys
  import opened OwnerTree
  import opened OwnerWorld
  import opened OwnerPages
  import opened OwnerProver
  import opened ObjectProofs

  datatype QueryError = Remote | StateUnavailable

  // The state a finalized block commits to.
  datatype BlockState = BlockState(world: World, objects: Database)

  // A block whose certificate and encoding verified.
  datatype VerifiedBlock = VerifiedBlock(payload: nat, height: nat, ownerRoot: Hash, stateRoot: Database)

  // What the server answers to one page request. Everything in a served response but
  // the certified block is the server's to choose.
  datatype Answer =
    | NoBlock
    | Unverified
    | Served(block: VerifiedBlock, page: OwnerPageProof, entries: seq<ProofEntry>)

  // The one holding an object gives a key, as coin_holdings and edge_keys decide it.
  ghost function HoldingOf(o: Object, key: Key): Option<OwnerLeaf> {
    match o
    case Coin(owner, delegate, value) =>
      if key == owner then Some(Holding(HOLDING_COIN, value))
      else if delegate == Some(key) then Some(Holding(HOLDING_DELEGATED, 0))
      else None
    case Edge(_, _, parties) => if key in parties then Some(Holding(HOLDING_EDGE, 0)) else None
    case RegistryChunk(_) => None
    case OwnerData(_) => None
  }

  // A block's owner tree is the tree of its objects.
  ghost predicate Consistent(b: BlockState) {
    && ValidWorld(b.world)
    && forall owner: Key, id: Key ::
         Lookup(HeldBy(b.world, owner), id) == if id in b.objects then HoldingOf(b.objects[id], owner) else None
  }

  ghost predicate Certified(chain: nat -> BlockState, b: VerifiedBlock) {
    && b.ownerRoot == OwnersRoot(chain(b.payload).world).hash
    && b.stateRoot == chain(b.payload).objects
  }

  // ---------- One holding ----------

  datatype VerifiedHolding = OwnedCoin(value: nat, delegatedToOwner: bool) | DelegatedCoin(value: nat) | HeldEdge

  function ValidateHolding(owner: Key, leaf: Option<OwnerLeaf>, o: Object): Result<VerifiedHolding, OwnerProofError> {
    match (leaf, o)
    case (Some(Holding(kind, balance)), Coin(coinOwner, delegate, value)) =>
      if kind == HOLDING_COIN && coinOwner == owner && balance == value then
        Ok(OwnedCoin(value, delegate == Some(owner)))
      else if kind == HOLDING_DELEGATED && balance == 0 && delegate == Some(owner) then Ok(DelegatedCoin(value))
      else Err(Binding)
    case (Some(Holding(kind, balance)), Edge(_, _, _)) =>
      if kind == HOLDING_EDGE && balance == 0 then Ok(HeldEdge) else Err(Binding)
    case _ => Err(Binding)
  }

  datatype Selection = Selection(delegated: bool, edges: bool)

  // The objects a listing asks for, told from the object alone.
  ghost predicate Wanted(sel: Selection, owner: Key, o: Object) {
    match o
    case Coin(coinOwner, delegate, _) =>
      !sel.edges && if sel.delegated then delegate == Some(owner) else coinOwner == owner
    case Edge(_, _, parties) => sel.edges && owner in parties
    case RegistryChunk(_) => false
    case OwnerData(_) => false
  }

  datatype Listed = ListedCoin(id: Key, value: nat) | ListedEdge(id: Key, maker: Key, taker: Key)

  ghost function Record(id: Key, o: Object): Listed
    requires o.Coin? || o.Edge?
  {
    if o.Coin? then ListedCoin(id, o.value) else ListedEdge(id, o.maker, o.taker)
  }

  // The match arms of the listing loop.
  function Select(sel: Selection, id: Key, v: VerifiedHolding, o: Object): Option<Listed> {
    match v
    case OwnedCoin(value, delegatedToOwner) =>
      if !sel.edges && (!sel.delegated || delegatedToOwner) then Some(ListedCoin(id, value)) else None
    case DelegatedCoin(value) => if !sel.edges && sel.delegated then Some(ListedCoin(id, value)) else None
    case HeldEdge => if sel.edges && o.Edge? then Some(ListedEdge(id, o.maker, o.taker)) else None
  }

  lemma {:induction false} SelectExact(sel: Selection, owner: Key, id: Key, o: Object)
    requires HoldingOf(o, owner).Some?
    ensures ValidateHolding(owner, HoldingOf(o, owner), o).Ok?
    ensures Select(sel, id, ValidateHolding(owner, HoldingOf(o, owner), o).value, o)
            == if Wanted(sel, owner, o) then Some(Record(id, o)) else None
  {
  }

  // Exactly which leaves pass for an object that the key holds: its true holding, and, for a
  // coin of the key delegated to the key itself, also a delegated entry without balance.
  lemma {:induction false} ValidateExact(owner: Key, leaf: Option<OwnerLeaf>, o: Object)
    requires HoldingOf(o, owner).Some?
    ensures ValidateHolding(owner, leaf, o).Ok? <==>
              || leaf == HoldingOf(o, owner)
              || (&& o.Coin? && o.owner == owner && o.delegate == Some(owner)
                  && leaf == Some(Holding(HOLDING_DELEGATED, 0)))
  {
  }

  // ---------- One page ----------

  // What the listing of these holdings must contain.
  ghost function Collected(sel: Selection, owner: Key, objects: Database, ks: seq<Key>): seq<Listed> {
    if ks == [] then []
    else
      var k := ks[|ks| - 1];
      Collected(sel, owner, objects, ks[..|ks| - 1])
      + if k in objects && Wanted(sel, owner, objects[k]) then [Record(k, objects[k])] else []
  }

  lemma {:induction false} CollectedAppend(sel: Selection, owner: Key, objects: Database, a: seq<Key>, b: seq<Key>)
    ensures Collected(sel, owner, objects, a + b) ==
        Collected(sel, owner, objects, a) + Collected(sel, owner, objects, b)
  {
    if b == [] {
      assert a + b == a;
    } else {
      var n := |b| - 1;
      assert (a + b)[..|a + b| - 1] == a + b[..n];
      CollectedAppend(sel, owner, objects, a, b[..n]);
    }
  }

  function PageIds(hs: seq<HoldingProof>): set<Key> {
    set h | h in hs :: h.objectId
  }

  lemma {:induction false} CollectedOne(sel: Selection, owner: Key, objects: Database, ks: seq<Key>, lo: nat, hi: nat)
    requires lo <= hi < |ks| && ks[hi] in objects
    ensures Collected(sel, owner, objects, ks[lo..hi + 1]) ==
              Collected(sel, owner, objects, ks[lo..hi])
              + if Wanted(sel, owner, objects[ks[hi]]) then [Record(ks[hi], objects[ks[hi]])] else []
  {
    assert ks[lo..hi + 1][..hi - lo] == ks[lo..hi];
  }

  method CollectPage(
    sel: Selection, owner: Key, hs: seq<HoldingProof>, objects: Database, ghost b: BlockState, ghost offset: nat)
    returns (r: Result<seq<Listed>, QueryError>)
    requires Consistent(b) && ListsFrom(HeldBy(b.world, owner), offset, hs)
    requires objects == Restriction(b.objects, PageIds(hs))
    ensures r == Ok(Collected(sel, owner, b.objects, Listing(HeldBy(b.world, owner))[offset..offset + |hs|]))
  {
    ghost var ks := Listing(HeldBy(b.world, owner));
    var listing: seq<Listed> := [];
    assert ks[offset..offset] == [];
    for i := 0 to |hs|
      invariant listing == Collected(sel, owner, b.objects, ks[offset..offset + i])
    {
      var id := hs[i].objectId;
      assert hs[i] in hs && id in PageIds(hs);
      HeldObject(b, owner, offset + i);
      assert hs[i].path.leaf == Lookup(HeldBy(b.world, owner), id);
      if id !in objects {
        return Err(Remote);
      }
      SelectExact(sel, owner, id, objects[id]);
      var v := ValidateHolding(owner, hs[i].path.leaf, objects[id]);
      if v.Err? {
        return Err(Remote);
      }
      var chosen := Select(sel, id, v.value, objects[id]);
      CollectedOne(sel, owner, b.objects, ks, offset, offset + i);
      if chosen.Some? {
        listing := listing + [chosen.value];
      }
    }
    return Ok(listing);
  }

  lemma {:induction false} HeldObject(b: BlockState, owner: Key, i: nat)
    requires Consistent(b) && i < |Listing(HeldBy(b.world, owner))|
    ensures var id := Listing(HeldBy(b.world, owner))[i];
            id in b.objects && id in HeldBy(b.world, owner)
            && HoldingOf(b.objects[id], owner) == Some(HeldBy(b.world, owner)[id])
  {
    var m := HeldBy(b.world, owner);
    ListingExact(m);
    assert Listing(m)[i] in Listing(m);
    assert Lookup(m, Listing(m)[i]).Some?;
  }

  // ---------- The listing loop ----------

  // Where the loop stands after fetching pos of the owner's holdings.
  ghost predicate Fetched(b: BlockState, owner: Key, pos: nat, after: Option<Key>) {
    var ks := Listing(HeldBy(b.world, owner));
    0 < pos < |ks| && after == Some(ks[pos - 1])
  }

  // A page requested after the last fetched holding starts at the next one.
  lemma {:induction false} ResumeAt(b: BlockState, owner: Key, pos: nat, after: Option<Key>)
    requires Fetched(b, owner, pos, after)
    ensures Position(HeldBy(b.world, owner), after) == pos
  {
    var m := HeldBy(b.world, owner);
    RankOfListed(m, pos - 1);
    ListingExact(m);
    assert Listing(m)[pos - 1] in Listing(m);
  }

  // What an accepted page says about its block.
  ghost predicate TruePage(
    b: BlockState, owner: Key, after: Option<Key>, page: OwnerPageProof, count: nat, objects: Database)
  {
    var m := HeldBy(b.world, owner);
    && count == |Listing(m)|
    && page.offset == Position(m, after) <= |Listing(m)|
    && |page.holdings| == Min(MAX_CURRENT_KEYS, |Listing(m)| - page.offset)
    && ListsFrom(m, page.offset, page.holdings)
    && objects == Restriction(b.objects, PageIds(page.holdings))
  }

  // The loop's state: pos holdings fetched, and the cursor set to the last of them.
  ghost predicate Resumable(
    sel: Selection, owner: Key, b: BlockState, pos: nat, after: Option<Key>, listing: seq<Listed>)
  {
    var ks := Listing(HeldBy(b.world, owner));
    && pos <= |ks|
    && (if pos == 0 then after == None else Fetched(b, owner, pos, after))
    && listing == Collected(sel, owner, b.objects, ks[..pos])
  }

  lemma {:induction false} NothingFetched(sel: Selection, owner: Key, b: BlockState)
    ensures Resumable(sel, owner, b, 0, None, [])
  {
    assert Listing(HeldBy(b.world, owner))[..0] == [];
  }

  // One page moves the loop on by the page's length, and by at least one until the end.
  lemma {:induction false} NextPage(
    sel: Selection, owner: Key, b: BlockState, pos: nat, after: Option<Key>, listing: seq<Listed>,
    page: OwnerPageProof, count: nat, objects: Database)
    requires Consistent(b) && Resumable(sel, owner, b, pos, after, listing)
    requires TruePage(b, owner, after, page, count, objects)
    ensures page.offset == pos
    ensures var ks, n := Listing(HeldBy(b.world, owner)), |page.holdings|;
            && pos + n <= count == |ks|
            && listing + Collected(sel, owner, b.objects, ks[pos..pos + n]) ==
                Collected(sel, owner, b.objects, ks[..pos + n])
            && (pos + n < count ==> n > 0 && Fetched(b, owner, pos + n, Some(page.holdings[n - 1].objectId)))
  {
    var ks, n := Listing(HeldBy(b.world, owner)), |page.holdings|;
    if pos > 0 {
      ResumeAt(b, owner, pos, after);
    }
    assert ks[..pos + n] == ks[..pos] + ks[pos..pos + n];
    CollectedAppend(sel, owner, b.objects, ks[..pos], ks[pos..pos + n]);
  }

  // Collected over the whole listing is every wanted object, once, in key order.
  lemma {:induction false} CollectedExact(sel: Selection, owner: Key, b: BlockState, ks: seq<Key>)
    requires Increasing(ks)
    ensures var out := Collected(sel, owner, b.objects, ks);
            && (forall i, j :: 0 <= i < j < |out| ==> Less(out[i].id, out[j].id))
            && (forall l :: l in out <==>
                  l.id in ks && l.id in b.objects && Wanted(sel, owner, b.objects[l.id]) &&
                      l == Record(l.id, b.objects[l.id]))
  {
    if ks != [] {
      var n := |ks| - 1;
      var prev, k := ks[..n], ks[n];
      CollectedExact(sel, owner, b, prev);
      var before := Collected(sel, owner, b.objects, prev);
      forall i | 0 <= i < |before|
        ensures Less(before[i].id, k)
      {
        assert before[i] in before;
        var j :| 0 <= j < |prev| && prev[j] == before[i].id;
        assert Less(ks[j], ks[n]);
      }
      assert forall x: Key :: x in ks <==> x in prev || x == k;
    }
  }

  ghost predicate CompleteListing(sel: Selection, owner: Key, b: BlockState, out: seq<Listed>) {
    && (forall i, j :: 0 <= i < j < |out| ==> Less(out[i].id, out[j].id))
    && (forall l :: l in out <==>
          l.id in b.objects && Wanted(sel, owner, b.objects[l.id]) && l == Record(l.id, b.objects[l.id]))
  }

  lemma {:induction false} WholeListing(sel: Selection, owner: Key, b: BlockState)
    requires Consistent(b)
    ensures CompleteListing(sel, owner, b, Collected(sel, owner, b.objects, Listing(HeldBy(b.world, owner))))
  {
    var m := HeldBy(b.world, owner);
    ListingExact(m);
    CollectedExact(sel, owner, b, Listing(m));
    forall id: Key | id in b.objects && Wanted(sel, owner, b.objects[id])
      ensures id in Listing(m)
    {
      assert Lookup(m, id).Some?;
    }
  }

  // The listing after one more page; no next cursor means that it is done.
  datatype Part = Part(block: VerifiedBlock, listing: seq<Listed>, fetched: nat, next: Option<Key>)

  ghost predicate Advances(sel: Selection, owner: Key, b: BlockState, pos: nat, part: Part) {
    if part.next.None? then CompleteListing(sel, owner, b, part.listing)
    else
      && part.fetched > 0
      && pos + part.fetched <= |Listing(HeldBy(b.world, owner))|
      && Resumable(sel, owner, b, pos + part.fetched, part.next, part.listing)
  }

  // Where the listing loop stands: before its first page, or within the listing of its block.
  ghost predicate Underway(
    chain: nat -> BlockState, sel: Selection, owner: Key, snapshot: Option<VerifiedBlock>, pos: nat,
    after: Option<Key>, listing: seq<Listed>, total: nat)
  {
    if snapshot.None? then pos == 0 && after.None? && listing == []
    else
      var b := chain(snapshot.value.payload);
      && Certified(chain, snapshot.value)
      && Resumable(sel, owner, b, pos, after, listing)
      && pos <= total == |Listing(HeldBy(b.world, owner))|
  }

  // One more page leaves the loop under way at the first page's block, or ends it.
  lemma {:induction false} Onward(
    chain: nat -> BlockState, sel: Selection, owner: Key, snapshot: Option<VerifiedBlock>, pos: nat,
    after: Option<Key>, listing: seq<Listed>, total: nat, part: Part)
    requires Underway(chain, sel, owner, snapshot, pos, after, listing, total)
    requires Certified(chain, part.block) && Advances(sel, owner, chain(part.block.payload), pos, part)
    requires snapshot.Some? ==> snapshot.value.payload == part.block.payload
    ensures var first := if snapshot.Some? then snapshot.value else part.block;
            var count := |Listing(HeldBy(chain(part.block.payload).world, owner))|;
            && Certified(chain, first)
            && (part.next.None? ==> CompleteListing(sel, owner, chain(first.payload), part.listing))
            && (part.next.Some? ==>
                  && Underway(chain, sel, owner, Some(first), pos + part.fetched, part.next, part.listing, count)
                  && pos < pos + part.fetched <= count && (snapshot.Some? ==> count == total))
  {
  }

  ghost predicate EverNoBlock(answers: (nat, Option<Key>) -> Answer) {
    exists i: nat, after: Option<Key> :: answers(i, after).NoBlock?
  }

  // The records of a true page move the listing on, or complete it.
  lemma {:induction false} PageAdvances(
    sel: Selection, owner: Key, b: BlockState, pos: nat, after: Option<Key>, listing: seq<Listed>,
    page: OwnerPageProof, count: nat, objects: Database, records: seq<Listed>, part: Part)
    requires Consistent(b) && Resumable(sel, owner, b, pos, after, listing)
    requires TruePage(b, owner, after, page, count, objects)
    requires part.fetched == |page.holdings| && part.listing == listing + records
    requires page.offset + part.fetched <= |Listing(HeldBy(b.world, owner))|
    requires records
             == Collected(sel, owner, b.objects,
                 Listing(HeldBy(b.world, owner))[page.offset..page.offset + part.fetched])
    requires if page.offset + part.fetched == count then part.next.None?
             else part.fetched > 0 && part.next == Some(page.holdings[part.fetched - 1].objectId)
    ensures Advances(sel, owner, b, pos, part)
  {
    var ks := Listing(HeldBy(b.world, owner));
    NextPage(sel, owner, b, pos, after, listing, page, count, objects);
    if part.next.None? {
      assert ks[..|ks|] == ks;
      WholeListing(sel, owner, b);
    }
  }

  // The page's records join the listing, and its last key is where the next page starts.
  method ExtendListing(
    sel: Selection, owner: Key, block: VerifiedBlock, page: OwnerPageProof, count: nat, objects: Database,
    listing: seq<Listed>, ghost b: BlockState, ghost pos: nat, ghost after: Option<Key>)
    returns (r: Result<Part, QueryError>)
    requires Consistent(b) && Resumable(sel, owner, b, pos, after, listing)
    requires TruePage(b, owner, after, page, count, objects)
    ensures r.Ok? && r.value.block == block && Advances(sel, owner, b, pos, r.value)
  {
    NextPage(sel, owner, b, pos, after, listing, page, count, objects);
    var records := CollectPage(sel, owner, page.holdings, objects, b, page.offset);
    if records.Err? {
      return Err(Remote);
    }
    var done := page.offset + |page.holdings| == count;
    var next := if done then None else Some(page.holdings[|page.holdings| - 1].objectId);
    var part := Part(block, listing + records.value, |page.holdings|, next);
    PageAdvances(sel, owner, b, pos, after, listing, page, count, objects, records.value, part);
    return Ok(part);
  }

  // ---------- Which answers are accepted ----------

  ghost predicate PageAccepted(root: Hash, owner: Key, after: Option<Key>, page: OwnerPageProof) {
    if after.Some? then AfterResult(root, owner, after, MAX_CURRENT_KEYS, page).Ok?
    else OffsetResult(root, owner, 0, MAX_CURRENT_KEYS, page).Ok?
  }

  ghost predicate Accepts(owner: Key, after: Option<Key>, floor: nat, answer: Answer) {
    && answer.Served?
    && PageAccepted(answer.block.ownerRoot, owner, after, answer.page)
    && ValidResponse(answer.block.stateRoot, PageIds(answer.page.holdings), answer.entries)
    && floor <= answer.block.height
  }

  // The answer a server that holds the block gives: the page after the cursor, and one
  // valid entry for each of its objects.
  ghost predicate HonestAnswer(b: BlockState, owner: Key, after: Option<Key>, block: VerifiedBlock, answer: Answer) {
    && Position(HeldBy(b.world, owner), after) <= |Listing(HeldBy(b.world, owner))|
    && answer.Served? && answer.block == block
    && answer.page
       == HonestPage(b.world, owner, Position(HeldBy(b.world, owner), after), MAX_CURRENT_KEYS, after)
    && ValidResponse(b.objects, PageIds(answer.page.holdings), answer.entries)
  }

  // Whatever the server serves, its blocks are certified and their trees are those of
  // their objects.
  ghost predicate Genuine(chain: nat -> BlockState, answers: (nat, Option<Key>) -> Answer) {
    forall i, after :: GenuineAt(chain, answers, i, after)
  }

  ghost predicate GenuineAt(
    chain: nat -> BlockState, answers: (nat, Option<Key>) -> Answer, i: nat, after: Option<Key>)
  {
    answers(i, after).Served? ==>
      Certified(chain, answers(i, after).block) && Consistent(chain(answers(i, after).block.payload))
  }

  // Every request is answered honestly, from one certified block.
  ghost predicate HonestServer(
    chain: nat -> BlockState, owner: Key, block: VerifiedBlock, answers: (nat, Option<Key>) -> Answer)
  {
    && Certified(chain, block) && Consistent(chain(block.payload)) && FitsWorld(chain(block.payload).world)
    && forall i, after :: HonestAt(chain, owner, block, answers, i, after)
  }

  ghost predicate HonestAt(
    chain: nat -> BlockState, owner: Key, block: VerifiedBlock, answers: (nat, Option<Key>) -> Answer,
    i: nat, after: Option<Key>)
  {
    HonestAnswer(chain(block.payload), owner, after, block, answers(i, after))
  }

  lemma {:induction false} HonestPageAccepted(w: World, owner: Key, after: Option<Key>)
    requires ValidWorld(w) && FitsWorld(w)
    ensures Position(HeldBy(w, owner), after) <= |Listing(HeldBy(w, owner))|
    ensures PageAccepted(OwnersRoot(w).hash, owner, after,
                         HonestPage(w, owner, Position(HeldBy(w, owner), after), MAX_CURRENT_KEYS, after))
  {
    if after.Some? {
      AfterComplete(w, owner, after, MAX_CURRENT_KEYS);
    } else {
      PageComplete(w, owner, 0, MAX_CURRENT_KEYS, None);
    }
  }

  // Honest answers are accepted by any client that has not seen a later block.
  lemma {:induction false} HonestAccepted(
    chain: nat -> BlockState, owner: Key, after: Option<Key>, floor: nat, block: VerifiedBlock, answer: Answer)
    requires Certified(chain, block) && Consistent(chain(block.payload)) && FitsWorld(chain(block.payload).world)
    requires HonestAnswer(chain(block.payload), owner, after, block, answer) && floor <= block.height
    ensures Accepts(owner, after, floor, answer)
  {
    HonestPageAccepted(chain(block.payload).world, owner, after);
  }

  lemma {:induction false} HonestTurn(
    chain: nat -> BlockState, owner: Key, block: VerifiedBlock, answers: (nat, Option<Key>) -> Answer,
    i: nat, after: Option<Key>, floor: nat)
    requires HonestServer(chain, owner, block, answers) && floor <= block.height
    ensures Accepts(owner, after, floor, answers(i, after)) && answers(i, after).block == block
  {
    assert HonestAt(chain, owner, block, answers, i, after);
    HonestAccepted(chain, owner, after, floor, block, answers(i, after));
  }

  lemma {:induction false} EntryAdded(root: Database, keys: set<Key>, rest: seq<ProofEntry>, e: ProofEntry)
    requires ValidEntries(root, keys, rest) && KeySet(rest) == keys && e.key !in keys && ValidEntry(root, e)
    ensures ValidEntries(root, keys + {e.key}, rest + [e]) && KeySet(rest + [e]) == keys + {e.key}
  {
    MoreExpected(root, keys, keys + {e.key}, rest);
    assert (rest + [e])[..|rest|] == rest;
  }

  lemma {:induction false} EntriesFor(root: Database, keys: set<Key>) returns (entries: seq<ProofEntry>)
    ensures ValidEntries(root, keys, entries) && KeySet(entries) == keys && |entries| == |keys|
    decreases |keys|
  {
    entries := [];
    if keys != {} {
      var k :| k in keys;
      var e := EntryExists(root, k);
      var rest := EntriesFor(root, keys - {k});
      EntryAdded(root, keys - {k}, rest, e);
      assert keys - {k} + {k} == keys;
      entries := rest + [e];
    }
  }

  lemma {:induction false} MoreExpected(root: Database, a: set<Key>, b: set<Key>, entries: seq<ProofEntry>)
    requires ValidEntries(root, a, entries) && a <= b
    ensures ValidEntries(root, b, entries)
  {
    if entries != [] {
      MoreExpected(root, a, b, entries[..|entries| - 1]);
    }
  }

  lemma {:induction false} PageIdsBound(hs: seq<HoldingProof>)
    ensures |PageIds(hs)| <= |hs|
  {
    if hs == [] {
      assert PageIds(hs) == {};
    } else {
      var n := |hs| - 1;
      PageIdsBound(hs[..n]);
      assert hs == hs[..n] + [hs[n]];
      assert PageIds(hs) == PageIds(hs[..n]) + {hs[n].objectId};
    }
  }

  // Every request has an honest answer.
  lemma {:induction false} HonestAnswerExists(b: BlockState, owner: Key, after: Option<Key>, block: VerifiedBlock)
    returns (answer: Answer)
    requires ValidWorld(b.world) && FitsWorld(b.world)
    ensures HonestAnswer(b, owner, after, block, answer)
  {
    HonestPageAccepted(b.world, owner, after);
    var page := HonestPage(b.world, owner, Position(HeldBy(b.world, owner), after), MAX_CURRENT_KEYS, after);
    PageIdsBound(page.holdings);
    var entries := EntriesFor(b.objects, PageIds(page.holdings));
    answer := Served(block, page, entries);
  }

  class RemoteLightClient {
    var appliedProgress: nat

    constructor ()
      ensures appliedProgress == 0
    {
      appliedProgress := 0;
    }

    // Accepts only a page that is the true slice at the requested cursor of a block not
    // older than any block already verified.
    method VerifiedOwnerPage(owner: Key, after: Option<Key>, answer: Answer, ghost chain: nat -> BlockState)
      returns (r: Result<Option<(VerifiedBlock, OwnerPageProof, Commitment, Database)>, QueryError>)
      requires answer.Served? ==> Certified(chain, answer.block) && ValidWorld(chain(answer.block.payload).world)
      modifies this
      ensures r.Ok? && r.value.Some? <==> Accepts(owner, after, old(appliedProgress), answer)
      ensures r == Ok(None) <==> answer.NoBlock?
      ensures r == Err(StateUnavailable) <==>
                Accepts(owner, after, 0, answer) && answer.block.height < old(appliedProgress)
      ensures if r.Ok? && r.value.Some? then appliedProgress == answer.block.height >= old(appliedProgress)
              else appliedProgress == old(appliedProgress)
      ensures r.Ok? && r.value.Some? ==> answer.Served? && r.value.value.0 == answer.block
      ensures r.Ok? && r.value.Some? ==>
                var (block, page, summary, objects) := r.value.value;
                TruePage(chain(block.payload), owner, after, page, summary.count, objects)
    {
      var floor := appliedProgress;
      if !answer.Served? {
        return if answer.NoBlock? then Ok(None) else Err(Remote);
      }
      var block, page := answer.block, answer.page;
      ghost var w := chain(block.payload).world;
      var verdict: Result<Commitment, OwnerProofError>;
      if after.Some? {
        verdict := VerifyOwnerPageAfter(block.ownerRoot, owner, after, MAX_CURRENT_KEYS, page);
        if verdict.Ok? {
          AfterSound(w, owner, after, MAX_CURRENT_KEYS, page);
        }
      } else {
        verdict := VerifyOwnerPage(block.ownerRoot, owner, 0, MAX_CURRENT_KEYS, page);
        if verdict.Ok? {
          PageSound(w, owner, 0, MAX_CURRENT_KEYS, page);
        }
      }
      if verdict.Err? {
        return Err(Remote);
      }
      NodeTotals(HoldingsOf(owner), HeldBy(w, owner), []);
      var objects := VerifyObjects(block.stateRoot, PageIds(page.holdings), answer.entries);
      if objects.Err? {
        return Err(Remote);
      }
      if block.height < floor {
        return Err(StateUnavailable);
      }
      appliedProgress := if appliedProgress < block.height then block.height else appliedProgress;
      return Ok(Some((block, page, verdict.value, objects.value)));
    }

    // One turn of the listing loop: fetch and check a page, and keep what is wanted.
    method FetchPart(
      owner: Key, sel: Selection, after: Option<Key>, snapshot: Option<VerifiedBlock>, answer: Answer,
      listing: seq<Listed>, ghost chain: nat -> BlockState, ghost pos: nat)
      returns (r: Result<Option<Part>, QueryError>)
      requires answer.Served? ==> Certified(chain, answer.block) && Consistent(chain(answer.block.payload))
      requires snapshot.None? ==> pos == 0 && after.None? && listing == []
      requires snapshot.Some? ==> Resumable(sel, owner, chain(snapshot.value.payload), pos, after, listing)
      modifies this
      ensures r.Ok? && r.value.Some? <==>
                && Accepts(owner, after, old(appliedProgress), answer)
                && (snapshot.Some? ==> snapshot.value.payload == answer.block.payload)
      ensures r == Ok(None) <==> answer.NoBlock?
      ensures r == Err(StateUnavailable) <==>
                && Accepts(owner, after, 0, answer)
                && (|| answer.block.height < old(appliedProgress)
                    || (snapshot.Some? && snapshot.value.payload != answer.block.payload))
      ensures r.Ok? && r.value.Some? ==>
                && appliedProgress == answer.block.height && r.value.value.block == answer.block
                && Advances(sel, owner, chain(answer.block.payload), pos, r.value.value)
    {
      var fetched := VerifiedOwnerPage(owner, after, answer, chain);
      if fetched.Err? {
        return Err(fetched.error);
      }
      if fetched.value.None? {
        return Ok(None);
      }
      var (block, page, summary, objects) := fetched.value.value;
      if snapshot.Some? && snapshot.value.payload != block.payload {
        return Err(StateUnavailable);
      }
      ghost var b := chain(block.payload);
      if snapshot.None? {
        NothingFetched(sel, owner, b);
      }
      var part := ExtendListing(sel, owner, block, page, summary.count, objects, listing, b, pos, after);
      if part.Err? {
        return Err(Remote);
      }
      return Ok(Some(part.value));
    }

    // The turn that sends request number i. An honest server's answer is always kept.
    method Turn(
      owner: Key, sel: Selection, after: Option<Key>, snapshot: Option<VerifiedBlock>,
      answers: (nat, Option<Key>) -> Answer, i: nat, listing: seq<Listed>,
      ghost chain: nat -> BlockState, ghost pos: nat, ghost total: nat, ghost honest: VerifiedBlock)
      returns (r: Result<Option<Part>, QueryError>)
      requires Genuine(chain, answers)
      requires Underway(chain, sel, owner, snapshot, pos, after, listing, total)
      modifies this
      ensures r == Ok(None) <==> answers(i, after).NoBlock?
      ensures r.Ok? && r.value.Some? ==>
                && Certified(chain, r.value.value.block)
                && (snapshot.Some? ==> snapshot.value.payload == r.value.value.block.payload)
                && Advances(sel, owner, chain(r.value.value.block.payload), pos, r.value.value)
      ensures
        && HonestServer(chain, owner, honest, answers) && old(appliedProgress) <= honest.height
        && (snapshot.Some? ==> snapshot.value == honest)
        ==> r.Ok? && r.value.Some? && r.value.value.block == honest && appliedProgress == honest.height
    {
      if HonestServer(chain, owner, honest, answers) && appliedProgress <= honest.height {
        HonestTurn(chain, owner, honest, answers, i, after, appliedProgress);
      }
      assert GenuineAt(chain, answers, i, after);
      r := FetchPart(owner, sel, after, snapshot, answers(i, after), listing, chain, pos);
    }

    // Whatever the server answers, a returned listing is complete: every wanted object of
    // one certified block, each exactly once and in key order. The loop always ends, and
    // an honest server with a block not older than the progress gets its listing returned.
    method VerifiedOwnerHoldings(
      owner: Key, sel: Selection, answers: (nat, Option<Key>) -> Answer,
      ghost chain: nat -> BlockState, ghost honest: VerifiedBlock)
      returns (r: Result<Option<(VerifiedBlock, seq<Listed>)>, QueryError>)
      requires Genuine(chain, answers)
      modifies this
      ensures r.Ok? && r.value.Some? ==>
                && Certified(chain, r.value.value.0)
                && CompleteListing(sel, owner, chain(r.value.value.0.payload), r.value.value.1)
      ensures answers(0, None).NoBlock? ==> r == Ok(None)
      ensures r == Ok(None) ==> EverNoBlock(answers)
      ensures HonestServer(chain, owner, honest, answers) && old(appliedProgress) <= honest.height ==>
                r.Ok? && r.value.Some? && r.value.value.0 == honest
    {
      var after: Option<Key> := None;
      var snapshot: Option<VerifiedBlock> := None;
      var listing: seq<Listed> := [];
      var request: nat := 0;
      ghost var pos: nat := 0;
      ghost var total: nat := 0;
      ghost var served := HonestServer(chain, owner, honest, answers) && appliedProgress <= honest.height;
      while true
        invariant Underway(chain, sel, owner, snapshot, pos, after, listing, total)
        invariant served ==> appliedProgress <= honest.height && (snapshot.Some? ==> snapshot.value == honest)
        invariant answers(0, None).NoBlock? ==> request == 0 && after.None?
        decreases snapshot.None?, total - pos
      {
        var fetched := Turn(owner, sel, after, snapshot, answers, request, listing, chain, pos, total, honest);
        if fetched.Err? {
          return Err(fetched.error);
        }
        if fetched.value.None? {
          assert answers(request, after).NoBlock?;
          return Ok(None);
        }
        request := request + 1;
        var part := fetched.value.value;
        Onward(chain, sel, owner, snapshot, pos, after, listing, total, part);
        listing := part.listing;
        pos := pos + part.fetched;
        total := |Listing(HeldBy(chain(part.block.payload).world, owner))|;
        if snapshot.None? {
          snapshot := Some(part.block);
        }
        if part.next.None? {
          return Ok(Some((snapshot.value, listing)));
        }
        after := part.next;
      }
    }
  }
}
