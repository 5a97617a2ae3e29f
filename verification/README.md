# Hellas verification

A Dafny model of the parts of Hellas that a client, a validator or a provider has to be able
to rely on without trusting the other side, with proofs about all inputs, all runs and all
interleavings of each part.

- **Owner tree** (`BitKeys`, `OwnerTree`, `OwnerPath`, `OwnerStore`, `OwnerWorld`,
  `OwnerPages`, `OwnerProver`, `OwnedWrites`): a 256-level summed sparse Merkle tree of
  holdings per owner, with one more tree of owner summaries above it. The tree is defined as
  a function of the map it commits to; the stored nodes, the updates, the compact paths, the
  page proofs, the stack walk that produces them and the verifier are all related to that
  function, and object writes keep it the tree of the objects.
- **Verified listing** (`ObjectProofs`, `OwnerClient`, `OwnerServer`): the exclusion-proof
  logic for object sets, the light client's loop that lists all holdings of an owner from an
  untrusted server, and the node's own listing loop.
- **Server-sent events** (`SseDecoder`, `SseFrame`, `SseStream`, `SseWriter`): the
  incremental decoder, the frame grammar, what a whole response decodes to, and the round
  trip from a reference writer.
- **Owner index** (`OwnerIndex`, `IndexLedger`): the four maps kept in step by finalized
  blocks, and what each transaction and a whole chain do to coins and edges.
- **Grant runtime** (`GrantRuntime`, `GrantCompletion`): admission against a memory budget,
  streaming, completion and delivery, as a machine over the sections run under the locks.
- **Mempool** (`Mempool`): the general lane, strikes, and the window that rotates with the
  height.
- **Finality evidence** (`FinalityCodec`, `Finality`): the wire form, the verifier and the
  archive walk.
- **Coherent reads** (`CoherentReads`): commit, publish, restart, restore and guarded reads.
- **Stream brackets** (`StreamBrackets`, `StreamContent`): rendering output events as content
  blocks, judged by an acceptor that sees only what was emitted and by what the events say.
- **Schema expansion** (`SchemaExpansion`): the recursive expansion of message descriptors.

Three modelling choices run through all of it. Hashes are symbolic constructor terms, so
"collision-free hash" is an injective constructor. Signature checks, the codecs of the
consensus library and UTF-8 validity are function parameters. Machine integers are written
out where they can overflow: `u64` counts, `u128` balances, saturating `usize` and `u32`
counters.

`dafny verify dfyconfig.toml` checks the whole project.

## Where the code and its promises part

- `finality_proof::encode` does not bound the certificate that `decode` bounds at 4096 bytes.
  `FinalityCodec.DecodeEncode` gives the exact condition, `FinalityCodec.OversizedExample` a
  failing input.
- The archive walk compares the certificate's round but not its parent view, which the
  verifier also checks. `Finality.BuiltVerifies` gives the exact condition,
  `Finality.ParentViewUnchecked` a failing archive.
- A tool-argument delta can name a block that is already closed.
  `StreamBrackets.ArgumentsNameOpen` says exactly when it names the open block,
  `StreamBrackets.ArgumentsAfterClose` gives the events for which it does not.
- The comment on the mempool's strike bound promises that a resident failing every examination
  is evicted within one rotation plus eight blocks. That holds, with the tighter bound of
  max(n, 8) blocks, for a pool that keeps its members and order (`Mempool.EvictionExact`). It
  is false for a pool whose size moves: `Mempool.NeverExamined` is a run of 6720 blocks, against
  some 192 promised, in which such a resident is never examined. `Mempool.BusyExact` says
  exactly when a resident leaves any pool.
- A reader that comes between a commit and its publication needs finality evidence for the
  committed block, which the archive may not have yet. `CoherentReads.ReadAnswered` says exactly
  when a read is answered, `CoherentReads.EvidenceMissing` gives a run in which it is not.

## Model

| member | source | states |
|---|---|---|
| `OwnerTree.Combine` | crates/chain/src/owner_proof.rs:328-351 | two child commitments combine exactly when both checked sums fit `u64` and `u128`, and then into their join |
| `OwnerTree.LeafIsNode` | crates/chain/src/owner_proof.rs:352-395 | a leaf commits exactly when it is absent or valid for its tree, and its commitment is the bottom node of every tree holding it; which leaves are valid is said by `OwnedWrites.LeafExact` and `OwnedWrites.SummaryExact` |
| `OwnerTree.ListingExact` | crates/chain/src/owner_proof.rs:599-627 | left-to-right order below the root is the one strictly increasing listing of exactly the keys present |
| `OwnerTree.NodeTotals` | crates/chain/src/owner_proof.rs:328-351 | a node's count and balance are the number of keys below it and the sum of their leaves |
| `OwnerTree.RankCounts` | crates/chain/src/owner_proof.rs:518-541 | the sum of the left siblings' counts along a key's path is the number of smaller keys |
| `OwnerPath.CompactCanonical` | crates/chain/src/owner_proof.rs:477-495 | dropping empty siblings leaves a canonical list: strictly increasing depths, none empty |
| `OwnerPath.ExpandCompact` | crates/chain/src/owner_proof.rs:45-50 | expanding the compact siblings gives back the full vector of 256 siblings |
| `OwnerPath.ExpandSiblings` | crates/chain/src/owner_proof.rs:496-517 | accepts exactly the canonical sibling lists and then yields their full vector |
| `OwnerPath.VerifyPath` | crates/chain/src/owner_proof.rs:518-541 | the climbing loop computes the specified commitment and rank, or the specified refusal |
| `OwnerPath.PathSound` | crates/chain/src/owner_proof.rs:518-541 | a path that reproduces the root hash of any map proves that map's entry for the key, present or absent, and the number of smaller keys |
| `OwnerPath.PathComplete` | crates/chain/src/owner_proof.rs:477-541 | the compact honest path of every key, present or absent, is accepted with the root and the true rank |
| `OwnerStore.DecodeStored` | crates/chain/src/owner_proof.rs:428-449 | what is stored at an inner prefix decodes to the commitments of its two children, including when nothing is stored |
| `OwnerStore.MemoryOwnerTree.PutNode` | crates/chain/src/owner_proof.rs:757-770 | one node is set or removed and every other node is kept |
| `OwnerStore.MemoryOwnerTree.Path` | crates/chain/src/owner_proof.rs:477-495 | on any store the walk down is refused exactly when some node on the way does not decode, and otherwise yields the stored leaf and the compacted stored siblings |
| `OwnerStore.StoredPathExpands` | crates/chain/src/owner_proof.rs:477-517 | whatever the store, a path read out of it is canonical and expands to exactly the siblings that were read |
| `OwnerStore.StoredIsHonest` | crates/chain/src/owner_proof.rs:477-495 | on a store that holds a map, every path is readable and is that map's honest path |
| `OwnerStore.MemoryOwnerTree.Update` | crates/chain/src/owner_proof.rs:451-476 | succeeds exactly when the leaf is valid and the new totals fit; then the store holds the changed map and the result is its root; a refusal leaves the store untouched for a bad leaf, and otherwise the path rewritten up to the depth above which the totals overflow; no other tree is ever touched |
| `OwnerStore.RootOverflows` | crates/chain/src/owner_proof.rs:328-351 | totals that overflow anywhere on the path overflow at the root, so the update refuses exactly on the root's totals |
| `OwnerWorld.EmptyWorld` | crates/chain/src/owner_proof.rs:745-749 | a store represents the world in which nobody holds anything exactly when it has no nodes, and that root is the zero hash |
| `OwnerWorld.OwnerRoot` | crates/chain/src/owner_proof.rs:543-546 | the stored root is the root computed from scratch from the owner/object map |
| `OwnerWorld.UpdateHolding` | crates/chain/src/owner_proof.rs:551-576 | succeeds exactly when the update is admissible, and then the store is the one of the changed map; a refusal leaves the store unchanged for a bad value, the owner's holdings half written and the summaries old when the holdings overflow, or the holdings new and the summaries half written when those overflow |
| `OwnerWorld.ApplyUpdates` | crates/chain/src/owner_proof.rs:551-576 | a sequence of updates runs through exactly when each is admissible where it stands, and the store then represents the resulting map; else it stops at the first inadmissible one, with the store of that refusal |
| `OwnerWorld.StoreUnique` | crates/chain/src/owner_proof.rs:451-476 | one owner/object map has exactly one store, node for node |
| `OwnerWorld.RunIsLastWrite` | crates/chain/src/owner_proof.rs:551-576 | after any updates from the empty world an entry is what its last update wrote |
| `OwnerWorld.HistoryIndependent` | crates/chain/src/owner_proof.rs:543-576 | two histories that agree on last writes leave identical nodes and the same owner root |
| `OwnerWorld.RemovedEverything` | crates/chain/src/owner_proof.rs:439-476 | when every entry was last removed no node is left and the root is the zero hash |
| `OwnerWorld.EmptyIffCountZero` | crates/chain/src/owner_proof.rs:551-576 | a summary count of zero means exactly that the owner holds nothing, which is when the summary leaf is deleted |
| `OwnedWrites.OwnershipExact` | crates/chain/src/execution/owner_tree.rs:146-155 | the filing list of an object gives each key exactly the one holding that the object gives it |
| `OwnedWrites.LeafExact` | crates/chain/src/owner_proof.rs:371-387 | a holdings leaf commits if and only if some object gives the owner that very holding: a coin's value, or an edge or delegated coin without balance |
| `OwnedWrites.UnknownKindRefused` | crates/chain/src/owner_proof.rs:376-380 | a holding of any other kind is refused |
| `OwnedWrites.SummaryExact` | crates/chain/src/owner_proof.rs:364-370 | a summary commits exactly in the owners' tree with a positive count, and no holding commits there |
| `OwnedWrites.ConsistentExact` | crates/chain/src/execution/owner_tree.rs:136-155 | every database of objects has exactly one owner tree that is the tree of its objects |
| `OwnedWrites.WithinFits` | crates/chain/src/owner_proof.rs:328-351 | whoever holds less fits whenever those who hold more do |
| `OwnedWrites.WriteOwned` | crates/chain/src/execution/owner_tree.rs:157-196 | one object write turns the tree of the old objects into the tree of the new ones; it fails exactly when an object of the tree's own namespace is involved, the tree then untouched, or the new totals do not fit |
| `OwnedWrites.NoObjects` | crates/chain/src/execution/owner_tree.rs:157-196 | the store with no nodes is that of no objects |
| `OwnedWrites.WrittenConsistent` | crates/chain/src/execution/owner_tree.rs:157-196 | whatever was written in whatever order, the nodes are determined by the objects, and the state is one a light client can rely on |
| `OwnerPages.VerifyHolding` | crates/chain/src/owner_proof.rs:733-741 | one holding is accepted or refused as specified, by its leaf kind, its rank and the commitment its path reproduces |
| `OwnerPages.VerifyHoldings` | crates/chain/src/owner_proof.rs:733-741 | the loop refuses at the first bad holding and accepts exactly when there is none |
| `OwnerPages.VerifyOwnerPageAt` | crates/chain/src/owner_proof.rs:703-743 | the page check returns the specified summary or the specified refusal |
| `OwnerPages.VerifyOwnerPage` | crates/chain/src/owner_proof.rs:663-674 | the offset form additionally refuses a page with a cursor or with another offset |
| `OwnerPages.VerifyOwnerPageAfter` | crates/chain/src/owner_proof.rs:676-701 | the after-key form checks the page at the offset its cursor path proves |
| `OwnerPages.TotalIsCoinValue` | crates/chain/src/owner_proof.rs:352-395 | the balance a holdings tree sums is the sum over held coins, edges counting nothing |
| `OwnerPages.PageSound` | crates/chain/src/owner_proof.rs:703-743 | whatever the page, acceptance against the root of a world means its holdings are exactly the sorted slice from the offset of length min(limit, rest), and the summary is the true count and coin balance |
| `OwnerPages.AfterSound` | crates/chain/src/owner_proof.rs:676-701 | an accepted after-key page starts exactly at the first key greater than the cursor, held or not, and is that slice |
| `OwnerPages.RequestBound` | crates/chain/src/owner_proof.rs:663-701 | a page accepted by offset carries no cursor and that very offset, one accepted after a key carries that key and its path, and the two forms agree at the start |
| `OwnerPages.PageRefusals` | crates/chain/src/owner_proof.rs:703-731 | another request's page is refused by its binding, an illegal limit or a wrong number of holdings against the true count as a page, and a page with the right number never as a page |
| `OwnerProver.Walk` | crates/chain/src/owner_proof.rs:599-627 | the stack walk terminates and emits the honest proofs of exactly the keys numbered offset to end, in key order |
| `OwnerProver.ProveOwnerPage` | crates/chain/src/owner_proof.rs:578-637 | succeeds exactly for a legal limit and an offset within the listing, and yields the honest page |
| `OwnerProver.ProveOwnerPageAfter` | crates/chain/src/owner_proof.rs:641-659 | succeeds exactly for a legal limit and yields the honest page after the key, deleted or not |
| `OwnerProver.PageComplete` | crates/chain/src/owner_proof.rs:578-637 | every honest page is accepted by the page check with the owner's true summary |
| `OwnerProver.CursorComplete` | crates/chain/src/owner_proof.rs:676-701 | an honest cursor path proves exactly the position after its key |
| `OwnerProver.AfterComplete` | crates/chain/src/owner_proof.rs:641-701 | every honest after-key page is accepted by the after-key verifier |
| `ObjectProofs.SpanExcludes` | crates/chain/src/proof_verify.rs:439-445 | no member of the key set lies in another member's span to its cyclic successor |
| `ObjectProofs.SpanCovers` | crates/chain/src/proof_verify.rs:439-445 | every absent key lies in the span of some member, wrap-around and single-member sets included |
| `ObjectProofs.SpanOrdered` | crates/chain/src/proof_verify.rs:439-445 | the spans of two different members never share a key |
| `ObjectProofs.ExclusionExact` | crates/chain/src/proof_verify.rs:367-445 | for a non-empty key set a key is absent if and only if some other member's span contains it, and that member is unique |
| `ObjectProofs.EntryExact` | crates/chain/src/proof_verify.rs:367-436 | an accepted entry's content is the certified state at its key, absences included |
| `ObjectProofs.EntryExists` | crates/chain/src/proof_verify.rs:367-436 | for every key and every database there is an entry that is accepted |
| `ObjectProofs.VerifyObjects` | crates/chain/src/proof_verify.rs:367-436 | accepts exactly the responses with one valid entry for each expected key, and returns the certified state restricted to those keys; a false proof is reported exactly when the first entry out of order is an expected one that proves nothing |
| `OwnerClient.SelectExact` | crates/chain/src/owner_proof.rs:225-257 | on consistent data the holding check passes, and a record is listed exactly when the object is of the wanted sort |
| `OwnerClient.ValidateExact` | crates/chain/src/owner_proof.rs:225-257 | for an object the key holds, the check passes exactly its true holding and, for a coin of the key delegated to itself, also a delegated entry |
| `OwnerClient.CollectPage` | crates/chain/src/client.rs:179-211 | a verified page contributes exactly the wanted records of its slice, in order |
| `OwnerClient.NextPage` | crates/chain/src/client.rs:153-224 | a true page continues where the listing stopped, and if more remain it is non-empty and its last key resumes the walk |
| `OwnerClient.CollectedExact` | crates/chain/src/client.rs:153-224 | collecting sorted keys gives a key-ordered, duplicate-free list of exactly the wanted records |
| `OwnerClient.WholeListing` | crates/chain/src/client.rs:153-224 | collecting the whole listing of an owner is a complete listing |
| `OwnerClient.RemoteLightClient.VerifiedOwnerPage` | crates/chain/src/client.rs:226-268 | a page is handed on exactly when its proof, its objects and its height are accepted; it is then true of its certified block, and the progress becomes that block's height, which is never lower; no block is reported exactly when the server has none, and an unavailable state exactly for an accepted page behind the progress |
| `OwnerClient.RemoteLightClient.FetchPart` | crates/chain/src/client.rs:160-223 | one round succeeds exactly when the answer is accepted and stays on the first page's block, and then extends the listing by the next slice or completes it; a changed or older block is reported as unavailable state |
| `OwnerClient.RemoteLightClient.VerifiedOwnerHoldings` | crates/chain/src/client.rs:153-224 | for arbitrary answers the loop terminates, and a listing it returns has every wanted holding at one certified block, each once, in key order; an honest server with a block not behind the progress always gets its listing returned; a server without a block gives no listing, and only such a one does |
| `OwnerClient.HonestAccepted` | crates/chain/src/client.rs:226-268 | the honest page and honest entries of a certified block are accepted after every cursor by a client that has not seen a later block |
| `OwnerClient.HonestAnswerExists` | crates/chain/src/client.rs:226-268 | every block and cursor has an honest answer, absent cursors included |
| `OwnerServer.OwnerObjects` | crates/chain/src/rpc.rs:1106-1132 | the offset loop always ends, a count that is a multiple of the page size included, and lists every holding once, in key order, with its object; it fails exactly when some holding has no object, and only in that way |
| `OwnerServer.ConsistentPresent` | crates/chain/src/rpc.rs:1118-1127 | on a block whose owner tree is that of its objects no holding lacks its object |
| `SseDecoder.FindSseDelimiter` | crates/adaptors/src/wire.rs:316-326 | finds the first delimiter and its length, or none exactly when there is none |
| `SseDecoder.DrainAppend` | crates/adaptors/src/wire.rs:224-254 | draining is incremental: draining now and draining the rest with more bytes later equals draining everything at once |
| `SseDecoder.PendingExact` | crates/adaptors/src/wire.rs:276-296 | the pending buffer is kept exactly when some continuation closes the frame within the frame limit |
| `SseDecoder.Hopeless` | crates/adaptors/src/wire.rs:276-296 | bytes refused as pending would be refused whatever followed them |
| `SseDecoder.StillScanned` | crates/adaptors/src/wire.rs:224-254 | restarting the search three bytes before the old end cannot miss a delimiter |
| `SseDecoder.PushSplit` | crates/adaptors/src/wire.rs:153-202 | pushing two chunks and pushing their concatenation accept or refuse alike, with equal events, counters, pending bytes and scan offset |
| `SseDecoder.ChunkingInvariance` | crates/adaptors/src/wire.rs:153-202 | any sequence of pushes agrees with one push of the whole |
| `SseDecoder.AnyTwoChunkings` | crates/adaptors/src/wire.rs:153-202 | any two ways of splitting one byte stream agree from the start state |
| `SseDecoder.Decoder.TakeFrame` | crates/adaptors/src/wire.rs:256-274 | one frame updates the counters and yields its event as specified or gives the specified refusal, and the buffer is untouched |
| `SseDecoder.Decoder.DrainCompleteFrames` | crates/adaptors/src/wire.rs:224-254 | the scanning loop drains exactly the complete frames of the buffer and leaves the scan offset three bytes before its end |
| `SseDecoder.Decoder.AppendInParts` | crates/adaptors/src/wire.rs:161-199 | the append loop drains the old buffer with all the bytes as specified, its buffer-full refusals never taken |
| `SseDecoder.Decoder.Push` | crates/adaptors/src/wire.rs:153-202 | the in-place push is the specified push, refusals included; under the response limit the bytes always fit the buffer, and at most three old bytes are scanned again |
| `SseDecoder.AnyTwoResponses` | crates/adaptors/src/wire.rs:153-222 | any two ways of splitting one response agree to its end: refused alike, or equal events, the last unterminated frame included, and equal counters |
| `SseDecoder.ClosedByBlankLine` | crates/adaptors/src/wire.rs:316-326 | two line feeds close the pending bytes as one frame exactly when these do not end in a line feed or in a carriage return that would complete a delimiter |
| `SseDecoder.FinishIsBlankLine` | crates/adaptors/src/wire.rs:204-222 | finishing pending bytes that end open is what a closing blank line would have done: same verdict, events and counters, nothing left |
| `SseDecoder.ResponseIsDrain` | crates/adaptors/src/wire.rs:153-222 | a whole response, however cut, gives the events and counters of draining the stream closed by a blank line |
| `SseDecoder.Decoder.Finish` | crates/adaptors/src/wire.rs:204-222 | the in-place finish is the finish those lemmas are about |
| `SseStream.DrainExact` | crates/adaptors/src/wire.rs:224-254 | draining accepts exactly when every stretch between delimiters is short enough and parses and the counts fit; its events are then the events of those frames in order, each counter grew by what the frames contain, and the tail is left |
| `SseStream.RefusalExact` | crates/adaptors/src/wire.rs:224-274 | draining gives a refusal exactly when some frame is the first to be refused, in that way |
| `SseStream.EventLimitExact` | crates/adaptors/src/wire.rs:264-274 | the event limit refuses exactly the first frame with an event that comes when 65536 events were counted |
| `SseStream.PushExact` | crates/adaptors/src/wire.rs:153-202 | one push of a stream is accepted exactly when it is within the response limit, its frames are accepted and its tail may still become a frame, and it gives the events of its frames |
| `SseStream.ResponseExact` | crates/adaptors/src/wire.rs:153-222 | a whole response, however cut, is accepted exactly when it is within the limits and every frame parses, an unterminated one that is not blank included; its events are those of its frames in order and its counters count them |
| `SseFrame.PiecesExact` | crates/adaptors/src/wire.rs:328-377 | splitting at line feeds loses nothing and leaves no line feed in a line |
| `SseFrame.ParseSseFrame` | crates/adaptors/src/wire.rs:328-377 | the line loop computes the specified event and counters |
| `SseFrame.LinesAccounted` | crates/adaptors/src/wire.rs:328-377 | every line of a frame is a blank, an ignored line, the event name or a data line, each counted once |
| `SseFrame.CleanShape` | crates/adaptors/src/wire.rs:328-377 | both counters stay zero exactly for no line, one event line, or an event line followed by one data line |
| `SseFrame.SealedExact` | crates/adaptors/src/wire.rs:328-377 | a frame gives an event with zero counters exactly when it is one event line and one data line, and the event is those two |
| `SseFrame.ClassifyExact` | crates/adaptors/src/wire.rs:339-373 | a line is data or names the event exactly when it starts with that field name and a colon, one space after the colon is dropped, an empty line is blank and every other line is ignored |
| `SseFrame.FoldExact` | crates/adaptors/src/wire.rs:328-377 | parsing gives the first event name, all data lines in order, and counts each line as ignored or out of order for what it is |
| `SseWriter.FieldNames` | crates/adaptors/src/wire.rs:355-372 | the two fields are spelled event and data |
| `SseWriter.FrameRoundTrip` | crates/adaptors/src/wire.rs:328-377 | a written event is parsed back as itself if and only if its name is one line and no line of it ends in a carriage return; data of several lines is joined by line feeds |
| `SseWriter.FinalLineFeed` | crates/adaptors/src/wire.rs:338-343 | a line feed at the very end of a frame adds no line |
| `SseWriter.CutWritten` | crates/adaptors/src/wire.rs:224-254 | a written stream is cut into exactly the frames that were written, with nothing left |
| `SseWriter.StreamRoundTrip` | crates/adaptors/src/wire.rs:153-222 | events written one after the other are decoded back one for one, in order, however the bytes are cut, and no line is ignored |
| `OwnerIndex.RunIsOneChain` | crates/chain/src/owner_index.rs:271-309 | after any deliveries, repeats, gaps, conflicts and failures included, the state is one parent-linked chain applied once |
| `OwnerIndex.OnlyAppliedChanges` | crates/chain/src/owner_index.rs:271-309 | every outcome but an application changes nothing, and delivering an applied block again is a duplicate |
| `OwnerIndex.LinkedUnique` | crates/chain/src/owner_index.rs:271-309 | from genesis one tip determines the whole chain |
| `OwnerIndex.SameCursorSameState` | crates/chain/src/owner_index.rs:271-309 | two delivery sequences that end at one cursor end in one state |
| `OwnerIndex.CoinProjectionUnique` | crates/chain/src/owner_index.rs:16-22 | the owner view of the coins, with no empty entry, is determined by the coins |
| `OwnerIndex.EdgeProjectionUnique` | crates/chain/src/owner_index.rs:25-39 | the owner view of the edges, with no empty entry, is determined by the edges |
| `OwnerIndex.State.AddCoin` | crates/chain/src/owner_index.rs:378-390 | adds a coin to the ledger or fails unchanged, keeping ids disjoint and both owner views exact projections |
| `OwnerIndex.State.TakeCoin` | crates/chain/src/owner_index.rs:392-410 | takes a coin out of the ledger or fails unchanged, dropping an owner's entry when it becomes empty |
| `OwnerIndex.State.AddEdge` | crates/chain/src/owner_index.rs:412-421 | adds an edge under every key its parties commit to, once each, or fails unchanged |
| `OwnerIndex.State.TakeEdge` | crates/chain/src/owner_index.rs:423-460 | takes an edge out from under every such key, its assertions never failing, or fails unchanged |
| `OwnerIndex.State.ApplyKernel` | crates/chain/src/owner_index.rs:330-376 | one transaction does to the four maps what it does to the ledger, which is said by `IndexLedger.OpenExact`, `IndexLedger.CloseExact`, `IndexLedger.ReshapeExact` and `IndexLedger.MoveExact` |
| `OwnerIndex.State.ApplyFinalized` | crates/chain/src/owner_index.rs:271-309 | a delivery has the specified outcome and state; an error leaves index and cursor as they were |
| `IndexLedger.RemoveExact` | crates/chain/src/owner_index.rs:392-410 | coins are taken exactly when all are there and none is named twice, and then no other coin changes |
| `IndexLedger.InsertExact` | crates/chain/src/owner_index.rs:378-390 | coins are issued exactly when their ids are new and distinct, and then no other coin changes |
| `IndexLedger.IssuedExact` | crates/chain/src/owner_index.rs:342-353 | each output's coin is under its own id and no other id is issued |
| `IndexLedger.RemoveRefused` | crates/chain/src/owner_index.rs:392-410 | a refused taking names the first coin that is missing or named twice |
| `IndexLedger.InsertRefused` | crates/chain/src/owner_index.rs:378-390 | a refused issue names the first id that exists or repeats |
| `IndexLedger.OpenExact` | crates/chain/src/owner_index.rs:332-341 | an opening is accepted exactly when the edge is new and its funding coins are there and distinct; then the funding is gone and the edge is added, nothing else |
| `IndexLedger.CloseExact` | crates/chain/src/owner_index.rs:342-353 | a closing is accepted exactly when the edge is there and the payout ids are distinct and free once it is gone; then the edge is gone and every payout is a coin, nothing else |
| `IndexLedger.ReshapeExact` | crates/chain/src/owner_index.rs:356-368 | a reshape is accepted exactly when its inputs are there and distinct and its output ids are distinct and free once they are gone; then inputs are gone and outputs are there, nothing else |
| `IndexLedger.MoveExact` | crates/chain/src/owner_index.rs:370-374 | a move changes nothing |
| `IndexLedger.TxsEffect` | crates/chain/src/owner_index.rs:296-309 | after any accepted transactions each coin and edge is what the last transaction naming it made of it |
| `IndexLedger.ReplayHistory` | crates/chain/src/owner_index.rs:291-327 | a chain from height 0 amounts to one list of transactions that starts by issuing the first 65536 genesis allocations |
| `IndexLedger.IndexExact` | crates/chain/src/owner_index.rs:271-327 | whatever was delivered and in which order, each coin and edge of the index is what the last transaction of the applied chain naming it made of it |
| `IndexLedger.ChainApplied` | crates/chain/src/owner_index.rs:271-309 | a linked chain whose transactions apply is applied block by block, and whole |
| `IndexLedger.DeliveryVerdict` | crates/chain/src/owner_index.rs:271-309 | against an index at the end of a chain: its blocks are duplicates, another block at the top conflicts, later heights are gaps, a next block with another parent mismatches, and exactly the blocks that extend the chain are applied |
| `IndexLedger.EdgeKeysExact` | crates/chain/src/owner_index.rs:25-39 | an edge is filed exactly under the owner, signer and payout delegate of its two parties |
| `GrantRuntime.MatchesExact` | crates/authority/src/grant_service/cache.rs:155-177 | the digest chain matches a transcript if and only if the streamed events are its beginning |
| `GrantRuntime.PrefixMatches` | crates/authority/src/grant_service/cache.rs:165-177 | the recomputing loop decides the match |
| `GrantRuntime.OverBudget` | crates/authority/src/grant_service.rs:517-525 | the saturating fold refuses exactly when 256 jobs are live or the true sum exceeds the budget |
| `GrantRuntime.CheckKeeps` | crates/authority/src/grant_service.rs:499-526 | retention and admission keep every invariant, and what an admitted job reserved stays available while the writer waits |
| `GrantRuntime.InsertKeeps` | crates/authority/src/grant_service.rs:557-569 | inserting the admitted job keeps the budget, whatever progress and cancellation happened since its check |
| `GrantRuntime.ProgressKeeps` | crates/authority/src/grant_service.rs:706-749 | streaming keeps every invariant: bytes within the spool, the chain commits to the buffer, readers keep a prefix |
| `GrantRuntime.SealKeeps` | crates/authority/src/grant_service.rs:757-800 | sealing keeps every invariant, and a sealed completion extends what was streamed and fits the spool |
| `GrantRuntime.InstallKeeps` | crates/authority/src/grant_service.rs:828-847 | swapping the body for the signed transcript keeps the budget and every reader's position |
| `GrantRuntime.FailKeeps` | crates/authority/src/grant_service.rs:127-138 | discarding every body and refusing the job keeps every invariant |
| `GrantRuntime.StepKeeps` | crates/authority/src/grant_service.rs:404-1037 | every step of every party keeps budget, jobs, writer and readers in order |
| `GrantRuntime.BudgetHolds` | crates/authority/src/grant_service.rs:103-111 | in every interleaving at most 256 jobs are live, they hold at most 64 MiB, and no body exceeds the spool share of its reservation |
| `GrantRuntime.DeliveryExact` | crates/authority/src/grant_service.rs:923-1037 | in every interleaving a reader that reached the terminal holds the job's signed transcript, each event once and in order |
| `GrantRuntime.SignedOnce` | crates/authority/src/grant_service.rs:833-839 | a transcript once installed is never replaced for the rest of the run |
| `GrantRuntime.NeverMalformed` | crates/authority/src/grant_service.rs:1002-1010 | in every interleaving a reader of a retained, unrefused job is never past the end: the malformed refusal cannot happen |
| `GrantRuntime.DeliveryCompletes` | crates/authority/src/grant_service.rs:923-1037 | left alone, a reader of a finished job reaches the terminal with the whole transcript after exactly one read per missing event |
| `GrantRuntime.Runtime.Retain` | crates/authority/src/grant_service.rs:513-516 | retention drops exactly the inactive jobs whose delivery lapsed or whose body is gone |
| `GrantRuntime.Runtime.CheckAdmission` | crates/authority/src/grant_service.rs:499-526 | the in-place admission is the machine's check step, says whether the job was admitted, and keeps the invariant |
| `GrantRuntime.Runtime.InsertAccepted` | crates/authority/src/grant_service.rs:553-569 | the in-place insertion is the machine's insert step and keeps the invariant |
| `GrantRuntime.Runtime.RecordProgress` | crates/authority/src/grant_service.rs:706-749 | the in-place progress is the machine's progress step, every refusal leaving the jobs unchanged, and keeps the invariant |
| `GrantRuntime.Runtime.SealCompletion` | crates/authority/src/grant_service.rs:757-800 | the in-place sealing is the machine's seal step and keeps the invariant |
| `GrantRuntime.Runtime.InstallCompletion` | crates/authority/src/grant_service.rs:828-848 | the in-place installation is the machine's install step and keeps the invariant |
| `GrantRuntime.Runtime.DispatchJob` | crates/authority/src/grant_service.rs:573-614 | only a queued job starts running, as the machine's dispatch step, and the invariant is kept |
| `GrantRuntime.Runtime.CancelBody` | crates/authority/src/grant_service/cache.rs:17-23 | cancelling at any moment drops that body alone and keeps the invariant |
| `GrantRuntime.Runtime.FailJob` | crates/authority/src/grant_service.rs:127-138 | a failure drops every body and refuses the one job, keeping the invariant |
| `GrantRuntime.Poll` | crates/authority/src/grant_service.rs:973-1037 | one poll hands over the specified next event, the terminal, or a refusal |
| `GrantRuntime.Runtime.StreamUpdate` | crates/authority/src/grant_service.rs:960-1037 | one poll under the locks moves that reader alone, as the machine's read step, and keeps the invariant |
| `GrantCompletion.CompletionExact` | crates/authority/src/grant_service.rs:751-849 | sealing and installing finish the job with the completion, and sign it, exactly when it was verified, closes, continues what was streamed and fits the spool; else the job is refused without a body and nothing is signed; no other job is touched |
| `GrantCompletion.SignedWasVerified` | crates/authority/src/grant_service.rs:773-785 | in every run each signed transcript was offered, verified, for that very job |
| `GrantCompletion.RetentionExact` | crates/authority/src/grant_service.rs:513-516 | exactly the inactive jobs whose delivery lapsed or whose body is gone leave, and no other job changes |
| `GrantCompletion.AdmissionExact` | crates/authority/src/grant_service.rs:499-569 | a new job is accepted exactly when after retention one more fits the number of jobs and the memory; an accepted id changes nothing |
| `GrantCompletion.DeclineExact` | crates/authority/src/grant_service.rs:527-544 | a declined job leaves nothing but the retention |
| `GrantCompletion.DispatchExact` | crates/authority/src/grant_service.rs:573-614 | dispatch starts exactly a queued job and changes nothing else |
| `GrantCompletion.ProgressExact` | crates/authority/src/grant_service.rs:706-749 | an event is streamed exactly when its job runs with a retained body, it is no terminal and it fits the spool and the frame; else nothing changes |
| `GrantCompletion.StreamsAll` | crates/authority/src/grant_service.rs:706-749 | a running job streams every event that fits, in order |
| `GrantCompletion.ReadsAlong` | crates/authority/src/grant_service.rs:960-1037 | while a job is at work a reader is handed each streamed event it has not had, one each read, and then waits |
| `GrantCompletion.RefusedRead` | crates/authority/src/grant_service.rs:960-1037 | a refused read ends the stream and hands over nothing |
| `GrantCompletion.CancelWithdraws` | crates/authority/src/grant_service/cache.rs:17-23 | after a cancellation the next read of that job is turned away |
| `GrantCompletion.FailureWithdraws` | crates/authority/src/grant_service.rs:127-138 | after a recorded failure the job is refused and the next read of any job is turned away |
| `GrantCompletion.LateWithdraws` | crates/authority/src/grant_service.rs:725-728 | progress past the deadline withdraws the body |
| `GrantCompletion.AbortedRefused` | crates/authority/src/grant_service.rs:805-827 | a completion whose durable write failed is not signed and its job can be refused |
| `GrantCompletion.JobDelivered` | crates/authority/src/grant_service.rs:404-1037 | from any state in order with room, a job is admitted, streams, completes with its verified transcript, and a reader receives that transcript, each event once and in order |
| `Mempool.AdmitOutcome` | crates/chain/src/app.rs:165-185 | the outcome is Duplicate exactly for a resident digest, Full exactly for a full lane without strikes, and otherwise the newcomer is last with no strikes |
| `Mempool.AdmitSpares` | crates/chain/src/app.rs:165-185 | no resident without strikes ever leaves; the only one that can is the oldest struck one of a full lane |
| `Mempool.AdmitOrder` | crates/chain/src/app.rs:165-185 | a lane with room grows at the back; a full one gives up its first struck resident and the others keep their order |
| `Mempool.LaneInvariant` | crates/chain/src/app.rs:152-267 | from any such lane, in every interleaving of submissions and reconciliation sections, it has at most 120 entries and no digest twice |
| `Mempool.Unharmed` | crates/chain/src/app.rs:152-267 | a resident without strikes that is neither struck nor rejected stays without strikes, whatever submissions come between the sections of any number of reconciliations |
| `Mempool.OffsetExact` | crates/chain/src/app.rs:640-651 | the window's loop visits a given index at one offset only |
| `Mempool.RotationExact` | crates/chain/src/app.rs:640-651 | any n consecutive heights examine each of n residents exactly min(n, 32) times |
| `Mempool.InspectExact` | crates/chain/src/app.rs:640-683 | without faults each resident is noted under its own verdict exactly when the window reached it |
| `Mempool.OneBlock` | crates/chain/src/app.rs:640-687 | a transient resident gains one strike exactly when examined, and is gone exactly when that reaches eight |
| `Mempool.ResidentBlock` | crates/chain/src/app.rs:640-688 | one block clears the strikes of an executable resident it reaches, adds one to a transient one, removes a rejected one, and leaves the others; it stays exactly below eight strikes |
| `Mempool.ResponseBlock` | crates/chain/src/app.rs:640-688 | a response leaves exactly when the window reached it and it was rejected |
| `Mempool.FilterSplit` | crates/chain/src/app.rs:256-266 | removal keeps the order of what stays |
| `Mempool.FaultEnds` | crates/chain/src/app.rs:664-675 | a storage fault ends the inspection; what was found before it counts and nothing behind it does |
| `Mempool.StrikesCount` | crates/chain/src/app.rs:227-254 | while the pool keeps its members and order, a transient resident's strikes are its examinations |
| `Mempool.EvictionExact` | crates/chain/src/app.rs:640-687 | in a pool that keeps its members and order, a resident transient every time is evicted at a definite block, at most max(n, 8) on, and is there until then |
| `Mempool.LoneOrphan` | crates/chain/src/app.rs:640-687 | when all others execute, exactly the orphan is gone within max(n, 8) blocks |
| `Mempool.BusyExact` | crates/chain/src/app.rs:640-687 | in any pool, whatever submissions and removals of others come between blocks, a transient resident carries one strike for each time the window reached it where it then stood, and is gone exactly if that count reached eight at some block or an admission displaced it once struck |
| `Mempool.KeptReaches` | crates/chain/src/app.rs:640-651 | in a kept pool that count is the one the rotation gives |
| `Mempool.NeverReached` | crates/chain/src/app.rs:93-104 | a resident the window never reaches is never struck and never leaves |
| `Mempool.TideMisses` | crates/chain/src/app.rs:640-651 | the window of a lane that alternates between 120 and 119 residents misses the oldest one for 56 rotations in a row |
| `Mempool.NeverExamined` | crates/chain/src/app.rs:93-104 | a run of 6720 blocks in which a resident that would fail every examination is never examined and keeps its place without a strike |
| `Mempool.OpsExact` | crates/chain/src/app.rs:165-267 | in every interleaving of submissions with the separately locked sections of reconciliations, a resident carries one strike for each section that struck it, and is gone exactly if an eviction found it with eight or an admission displaced it with at least one |
| `Mempool.MempoolState.AdmitGeneral` | crates/chain/src/app.rs:165-185 | the in-place admission has the specified outcome and lane, and keeps the lane invariant |
| `Mempool.MempoolState.StrikeResidents` | crates/chain/src/app.rs:227-234 | strikes exactly the named residents, saturating |
| `Mempool.MempoolState.ClearStrikes` | crates/chain/src/app.rs:238-245 | clears exactly the named residents |
| `Mempool.MempoolState.EvictResidents` | crates/chain/src/app.rs:249-254 | keeps, in order, exactly the residents below eight strikes |
| `Mempool.MempoolState.RemoveDigests` | crates/chain/src/app.rs:256-267 | removes exactly the named digests from both lanes, keeping the order |
| `Mempool.MempoolState.Reconcile` | crates/chain/src/app.rs:640-687 | one reconciliation inspects the window up to the first fault and settles the pool as specified |
| `FinalityCodec.U32RoundTrip` | crates/chain/src/finality_proof.rs:128-143 | a big-endian length reads back |
| `FinalityCodec.TakeBytesExact` | crates/chain/src/finality_proof.rs:145-152 | a frame followed by anything is read back with exactly that tail |
| `FinalityCodec.TakeBytesOnly` | crates/chain/src/finality_proof.rs:145-152 | whatever is read was a frame: its length and bytes followed by the tail |
| `FinalityCodec.ParseExact` | crates/chain/src/finality_proof.rs:24-55 | decoding yields a certificate and blocks if and only if the bytes are their wire form within all bounds |
| `FinalityCodec.Decode` | crates/chain/src/finality_proof.rs:24-55 | the reader loop accepts exactly the parseable proofs and returns the decoded certificate and blocks |
| `FinalityCodec.AppendBytes` | crates/chain/src/finality_proof.rs:128-135 | appends one frame exactly when the result stays within the proof limit |
| `FinalityCodec.Encode` | crates/chain/src/finality_proof.rs:114-126 | succeeds exactly for at most 256 blocks within the size limit, with the four-byte slack when there are none, and writes the wire form |
| `FinalityCodec.DecodeEncode` | crates/chain/src/finality_proof.rs:24-126 | what was encoded decodes to the same parts if and only if the certificate is within 4096 bytes, and otherwise is refused |
| `FinalityCodec.OversizedExample` | crates/chain/src/finality_proof.rs:114-126 | a proof whose certificate encodes to 4097 bytes, which decode to that certificate, is encoded and then refused |
| `FinalityCodec.EncodeDecode` | crates/chain/src/finality_proof.rs:24-126 | every accepted proof is encodable and encodes to the very bytes it was decoded from |
| `FinalityCodec.ReceivedAsSent` | crates/chain/src/finality_proof.rs:24-126 | a proof encoded with its certificate's own encoding decodes to that very proof if and only if the certificate is within the bound |
| `FinalityCodec.SentAsReceived` | crates/chain/src/finality_proof.rs:24-126 | an accepted proof re-encoded from its decoded certificate is the received bytes if and only if the certificate came in its own encoding |
| `Finality.Verify` | crates/chain/src/finality_proof.rs:59-92 | accepts exactly when heights and parent hashes link the snapshot to the tip, the terminal's context matches, the certificate names the tip and is signed; each refusal is the one of the first check that fails |
| `Finality.AncestorOfTip` | crates/chain/src/finality_proof.rs:59-77 | an accepted chain makes the snapshot the hash-linked ancestor of the certified payload, one link per descendant |
| `Finality.OneHistory` | crates/chain/src/finality_proof.rs:59-77 | chains of one length to one payload have the same snapshot and the same blocks |
| `Finality.OneBlockPerHeight` | crates/chain/src/finality_proof.rs:59-99 | one payload proves at most one snapshot at each height |
| `Finality.Ascend` | crates/chain/src/indexer.rs:211-253 | the walk reaches the nearest certificate over archive blocks linked by height and hash, or nothing is provable |
| `Finality.FinalizedBlockAt` | crates/chain/src/indexer.rs:187-254 | evidence is built exactly when the block is retained, present, matches, and some stretch of the archive is provable; it is that stretch with the nearest certificate, encoded |
| `Finality.BuiltVerifies` | crates/chain/src/indexer.rs:211-253 | built evidence passes the verifier's height, parent and payload checks within 256 descendants, and verifies if and only if it is signed and the parent view agrees |
| `Finality.BuiltClientVerifies` | crates/chain/src/proof_verify.rs:254-266 | built evidence passes the light client if and only if it is signed and its parent view is that of the certified block, direct certificates included |
| `Finality.ParentViewUnchecked` | crates/chain/src/indexer.rs:215-226 | an archive whose certificate has another parent view yields evidence that the verifier refuses |
| `Finality.BuiltDecodes` | crates/chain/src/indexer.rs:224-226 | built evidence decodes to the very proof that was built if and only if its certificate is within the bound |
| `CoherentReads.StepKeeps` | crates/chain/src/app.rs:580-605 | commit, publish, prune, restart, replay, restore and every reader step keep the node coherent |
| `CoherentReads.ReadsAreCoherent` | crates/chain/src/rpc.rs:453-487 | in every run, restarts included, a read names a finalized block whose state root is the root being read |
| `CoherentReads.NeverNotFinalized` | crates/chain/src/rpc.rs:471-479 | in every run, restarts and pruning included, no reader is told that the state is not a finalized block |
| `CoherentReads.ReadAnswered` | crates/chain/src/rpc.rs:453-487 | in every run that reached a serving node, three steps of a new reader end in a read exactly when the database's state is the published one or the archive can build finality evidence for the next block (some stretch is `Finality.Provable`), and else in a refusal for missing evidence, which can be only between a commit and its publication |
| `CoherentReads.EvidenceMissing` | crates/chain/src/rpc.rs:471-473 | a run in which a reader comes right after a commit and is refused for missing evidence |
| `CoherentReads.GuardHolds` | crates/chain/src/rpc.rs:445-452 | over any further steps short of a restart or its release, the database under a reader's guard is the same and what it has read stays the block of that state |
| `CoherentReads.CommitWaits` | crates/chain/src/rpc.rs:445-452 | a commit is held up by any reader's guard and goes ahead when the last is released |
| `CoherentReads.LookupExact` | crates/chain/src/rpc.rs:469-487 | a looked-up read names a block the archive has and serves, with evidence and the database's state, and evidence is missing exactly for such a block without it |
| `CoherentReads.RestoredServes` | crates/chain/src/execution/pipeline.rs:150-192 | restoring at either acknowledged height finds the database's block, or the next one in the same state, and serves with every invariant in place |
| `CoherentReads.RestoreBinds` | crates/chain/src/execution/pipeline.rs:167-187 | a restore publishes a block with the database's state root, owner root and sync target, the later candidate first |
| `CoherentReads.PruneExact` | crates/chain/src/execution/pipeline.rs:101-106 | retention keeps exactly the last heights of its window to be served and at least the last two in the archive |
| `CoherentReads.ReplayEnds` | crates/chain/src/app.rs:580-605 | a node trailing after a restart is through after one notification for each trailing block, its cursor then at the database's state |
| `CoherentReads.NeverRefused` | crates/chain/src/execution/pipeline.rs:189-191 | no run ends with a node that refuses to start |
| `CoherentReads.RestartRecovers` | crates/chain/src/execution/pipeline.rs:150-192 | from any moment of any run a restart followed by a restore serves again, with the database as it was |
| `CoherentReads.Reachable` | crates/chain/src/app.rs:580-605 | every height of the chain is reached by some run |
| `StreamBrackets.EventReads` | crates/adaptors/src/anthropic.rs:163-236 | what any one event emits is accepted by the reference acceptor, which ends with the renderer's open block and next index |
| `StreamBrackets.Bracketed` | crates/adaptors/src/anthropic.rs:163-236 | over every event sequence, rendering errors included, the whole stream is accepted and live tool calls have distinct parser indices |
| `StreamBrackets.StreamShape` | crates/adaptors/src/anthropic.rs:579-755 | at every moment blocks have started as 0, 1, 2, ..., all but at most the last are stopped once and in order, a start finds none open, and a text or thinking delta names the open one |
| `StreamBrackets.AcceptedMeans` | crates/adaptors/src/anthropic.rs:644-661 | what acceptance says about the start and stop indices of any stream |
| `StreamBrackets.NothingOpenAtEnd` | crates/adaptors/src/anthropic.rs:202-234 | after an error or a finish nothing is open |
| `StreamBrackets.ParsersUnique` | crates/adaptors/src/anthropic.rs:663-706 | no two live tool calls share a parser index |
| `StreamBrackets.ArgumentsNameOpen` | crates/adaptors/src/anthropic.rs:708-725 | an argument delta names the open block if no text, structured output, other accepted tool call, error or finish came since its call started, and, while block indices are unsaturated, only then |
| `StreamBrackets.OnlyOwnEnd` | crates/adaptors/src/anthropic.rs:727-743 | while block indices are unsaturated, the end of another call never closes a call's open block |
| `StreamBrackets.ArgumentsAfterClose` | crates/adaptors/src/anthropic.rs:708-725 | a tool start, a text delta and an argument delta make the last name a closed block |
| `StreamBrackets.StreamState.RenderTextDelta` | crates/adaptors/src/anthropic.rs:579-642 | in-place rendering of a text or thinking delta is the specified one |
| `StreamBrackets.StreamState.RenderToolCallStart` | crates/adaptors/src/anthropic.rs:663-706 | in-place rendering of a tool start is the specified one, a refusal changing nothing |
| `StreamBrackets.StreamState.RenderToolCallEnd` | crates/adaptors/src/anthropic.rs:727-743 | in-place rendering of a tool end is the specified one; the call is forgotten even when the result is an error |
| `StreamBrackets.StreamState.RenderStreamEvent` | crates/adaptors/src/anthropic.rs:163-236 | in-place rendering of any event is the specified one |
| `StreamContent.ContentExact` | crates/adaptors/src/anthropic.rs:163-236 | for every event sequence the emitted stream says exactly what the events say: each text, reasoning and structured delta, each argument delta of a known call, each new call's start, each error and each finish with the last reported usage, once, in order, with its content |
| `StreamContent.RunRemembers` | crates/adaptors/src/anthropic.rs:663-743 | the renderer's calls are exactly those started with an id and not ended since, and its usage is the last one reported |
| `StreamContent.RefusedExact` | crates/adaptors/src/anthropic.rs:163-236 | exactly adaptor events, a start without id or of a known call, arguments or an end of an unknown call, and the end of a call whose block is not open are refused |
| `SchemaExpansion.PushShrinks` | crates/rpc/build.rs:325-331 | pushing a message that is not on the stack shrinks the number of messages off it, the measure of the recursion |
| `SchemaExpansion.SuccessIsSafe` | crates/rpc/build.rs:319-381 | if an expansion succeeds, no walk along references from it meets the stack or itself, and every name it meets resolves |
| `SchemaExpansion.FailureIsUnsafe` | crates/rpc/build.rs:319-381 | if it fails, there is a walk that meets the stack or itself, or a name that does not resolve |
| `SchemaExpansion.FailureExplained` | crates/rpc/build.rs:319-381 | a failure names its true cause: the message where the walk meets itself or the stack, or the name that a message on the walk mentions and that is not there |
| `SchemaExpansion.ExpansionExact` | crates/rpc/build.rs:310-381 | the root expands exactly when it resolves, every reachable name resolves and no reachable walk repeats a message |
| `SchemaExpansion.UnfoldingUnique` | crates/rpc/build.rs:319-381 | a message has at most one finite unfolding |
| `SchemaExpansion.ExpansionIsUnfolding` | crates/rpc/build.rs:310-381 | the expansion returns a tree if and only if that tree is the finite unfolding of the root |
| `SchemaExpansion.SchemaIndex.MessageSchemaInner` | crates/rpc/build.rs:319-343 | the recursion over the mutable stack terminates, computes the expansion, and leaves the stack as it found it |
| `SchemaExpansion.SchemaIndex.FieldBase` | crates/rpc/build.rs:351-376 | one field type is expanded as specified under the stack, which it leaves as it found it |

## Left out

- SHA-256, BLS, ECDSA and certificate signatures: hashes are injective constructors and signature checks are predicates given as parameters.
- Byte layouts of tree nodes, blocks and certificates, and all protobuf conversions; owner keys stand for their digests.
- `u64` and `u128` fields of decoded commitments are natural numbers; the checked additions are modelled, the widths of stored fields are not.
- Epoch selection in the light client's finality check: each block's epoch against the trust configuration.
- `owner_objects` before its loop: the readiness test, the empty answer at height 0, the guarded read, and the finality evidence it fetches, which can refuse.
- OwnerIndex.State.ApplyKernel: says nothing of the ledger after an error, because the source runs it on a clone that it drops.
- OwnerClient.RemoteLightClient.VerifiedOwnerHoldings: answers are an arbitrary function of the request and its cursor; concurrent calls that move the applied progress are not modelled.
- Databases (QMDB, MMR proofs) and the marshal archive: an ordered map with cyclic successors and a partial map from heights to blocks.
- Kernel transaction semantics: the ids, parties and payouts of a transaction are data, with the fresh-id checks the index makes.
- `verified_coin_page`, `get_edge_at` and the other query endpoints: they reuse the verified page and the guarded read and would add only easy members.
- SSE allocation failure and buffer capacity growth; UTF-8 validity is a predicate.
- GrantRuntime: the shared map is updated in place only inside one locked section at a time; journals, permits, clocks and accounting are nondeterministic choices, and shutdown is not modelled.
- Mempool.MempoolState.Reconcile: one reconciliation is atomic here; submissions between its locked sections are covered by `Mempool.OpsExact`, `Mempool.LaneInvariant` and `Mempool.Unharmed`.
- Admission and replacement rules of the response lane, and proposal selection with its byte accounting.
- Finality.FinalizedBlockAt: the codec of blocks and certificates is a parameter whose only law is that each decodes from its own encoding.
- CoherentReads: the archive holds a contiguous range of heights, and whether it can build finality evidence is a choice at each lookup; a restore sees a processed height that is the database's or the one before it, as crates/chain/src/execution/pipeline.rs:167 states of the archive's acknowledgement; trailing notifications come in order.
- StreamBrackets.ArgumentsNameOpen: the converse is stated for fewer than 2^64 - 1 blocks, because from there on different blocks share one index.
- The JSON text of rendered events, and the provenance attached to the closing message.
- Object batches: the tree's nodes live in the same batch as the objects in the source and in a map of their own here; storage failures are not modelled.
- SseWriter: the writer is a reference for the round trip; the gateway writes its streams through a library that is not part of this model.
- Building the descriptor index (nested types, `compose_fqn`, `classify_field`) and hashing the schema into method ids.
