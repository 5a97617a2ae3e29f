/**
 Finality evidence: the verifier's walk from a snapshot to a certified descendant, and the
 archive walk that builds such evidence.
 Source: crates/chain/src/finality_proof.rs and crates/chain/src/indexer.rs.
 */
module Finality {
  import opened Wrappers
  import opened FinalityCodec

  datatype Snapshot = Snapshot(height: U64, payload: Payload)

  datatype Outcome = Accepted | InvalidFinalization | PayloadMismatch | VerificationFailed

  function Digest(b: Block): Payload {
    BlockHash(b)
  }

  function Tip(payload: Payload, blocks: seq<Block>): Payload {
    if blocks == [] then payload else Digest(blocks[|blocks| - 1])
  }

  // Each block follows the one before it, by height and by hash.
  ghost predicate Linked(s: Snapshot, blocks: seq<Block>) {
    && s.height + |blocks| <= U64_MAX
    && forall i :: 0 <= i < |blocks| ==> LinkAt(s, blocks, i)
  }

  ghost predicate LinkAt(s: Snapshot, blocks: seq<Block>, i: nat) {
    i < |blocks| && blocks[i].height == s.height + i + 1 && blocks[i].parent == Tip(s.payload, blocks[..i])
  }

  predicate ContextMatches(p: FinalityProof, terminal: Block) {
    terminal.round == p.certificate.round && terminal.parentView == p.certificate.parentView
  }

  // What the verifier accepts. `signed` stands for the threshold signature check.
  ghost predicate Verifies(p: FinalityProof, s: Snapshot, signed: Certificate -> bool) {
    && Linked(s, p.descendants)
    && (p.descendants != [] ==> ContextMatches(p, p.descendants[|p.descendants| - 1]))
    && p.certificate.payload == Tip(s.payload, p.descendants) && signed(p.certificate)
  }

  // Some descendant within the range of heights does not follow the one before it.
  ghost predicate BreaksInReach(s: Snapshot, blocks: seq<Block>) {
    exists i :: 0 <= i < |blocks| && s.height + i < U64_MAX && !LinkAt(s, blocks, i)
  }

  method Verify(p: FinalityProof, s: Snapshot, signed: Certificate -> bool) returns (r: Outcome)
    ensures r == Accepted <==> Verifies(p, s, signed)
    ensures !Linked(s, p.descendants) ==>
              r == if BreaksInReach(s, p.descendants) then PayloadMismatch else InvalidFinalization
    ensures Linked(s, p.descendants) ==>
              r == if p.descendants != [] && !ContextMatches(p, p.descendants[|p.descendants| - 1])
                   then InvalidFinalization
                   else if p.certificate.payload != Tip(s.payload, p.descendants) then PayloadMismatch
                   else if signed(p.certificate) then Accepted else VerificationFailed
  {
    var payload, height: nat := s.payload, s.height;
    for i := 0 to |p.descendants|
      invariant height == s.height + i <= U64_MAX && payload == Tip(s.payload, p.descendants[..i])
      invariant forall j :: 0 <= j < i ==> LinkAt(s, p.descendants, j)
    {
      if height == U64_MAX {
        return InvalidFinalization;
      }
      height := height + 1;
      var child := p.descendants[i];
      if child.height != height || child.parent != payload {
        assert !LinkAt(s, p.descendants, i);
        return PayloadMismatch;
      }
      assert LinkAt(s, p.descendants, i);
      payload := Digest(child);
      assert p.descendants[..i + 1][i] == child;
    }
    assert p.descendants[..|p.descendants|] == p.descendants;
    if p.descendants != [] && !ContextMatches(p, p.descendants[|p.descendants| - 1]) {
      return InvalidFinalization;
    }
    if p.certificate.payload != payload {
      return PayloadMismatch;
    }
    if !signed(p.certificate) {
      return VerificationFailed;
    }
    return Accepted;
  }

  // ---------- What acceptance means ----------

  // The hash reached by following k parent links from a payload.
  function Ancestor(payload: Payload, k: nat): Option<Payload>
    decreases payload, k
  {
    if k == 0 then Some(payload)
    else
      match payload
      case Foreign(_) => None
      case BlockHash(b) => Ancestor(b.parent, k - 1)
  }

  lemma {:induction false} LinkedPrefix(s: Snapshot, blocks: seq<Block>)
    requires Linked(s, blocks) && blocks != []
    ensures Linked(s, blocks[..|blocks| - 1])
  {
    var front := blocks[..|blocks| - 1];
    forall i | 0 <= i < |front| ensures LinkAt(s, front, i) {
      assert LinkAt(s, blocks, i);
      assert front[..i] == blocks[..i];
    }
  }

  // The snapshot is the hash-linked ancestor of the tip, as many links back as there are
  // descendants.
  lemma {:induction false} AncestorOfTip(s: Snapshot, blocks: seq<Block>)
    requires Linked(s, blocks)
    ensures Ancestor(Tip(s.payload, blocks), |blocks|) == Some(s.payload)
    decreases |blocks|
  {
    if blocks != [] {
      LinkedPrefix(s, blocks);
      AncestorOfTip(s, blocks[..|blocks| - 1]);
      assert LinkAt(s, blocks, |blocks| - 1);
    }
  }

  // Each descendant is pinned by the certified payload as well.
  lemma {:induction false} DescendantsPinned(s: Snapshot, blocks: seq<Block>, i: nat)
    requires Linked(s, blocks) && i < |blocks|
    ensures Ancestor(Tip(s.payload, blocks), |blocks| - 1 - i) == Some(Digest(blocks[i]))
    decreases |blocks|
  {
    if i < |blocks| - 1 {
      LinkedPrefix(s, blocks);
      DescendantsPinned(s, blocks[..|blocks| - 1], i);
      assert LinkAt(s, blocks, |blocks| - 1);
    }
  }

  // One certificate cannot serve two histories: snapshots proved at the same distance have
  // the same payload and the same descendants.
  lemma {:induction false} OneHistory(s: Snapshot, t: Snapshot, a: seq<Block>, b: seq<Block>)
    requires Linked(s, a) && Linked(t, b) && Tip(s.payload, a) == Tip(t.payload, b) && |a| == |b|
    ensures s.payload == t.payload && a == b
    ensures a != [] ==> s.height == t.height
  {
    AncestorOfTip(s, a);
    AncestorOfTip(t, b);
    forall i | 0 <= i < |a| ensures a[i] == b[i] {
      DescendantsPinned(s, a, i);
      DescendantsPinned(t, b, i);
    }
    if a != [] {
      assert LinkAt(s, a, 0) && LinkAt(t, b, 0);
    }
  }

  // The snapshot's own block carries the snapshot's height.
  ghost predicate TrueHeight(s: Snapshot) {
    s.payload.BlockHash? && s.payload.block.height == s.height
  }

  lemma {:induction false} TipHeight(s: Snapshot, blocks: seq<Block>)
    requires Linked(s, blocks) && TrueHeight(s)
    ensures TrueHeight(Snapshot(s.height + |blocks|, Tip(s.payload, blocks)))
  {
    if blocks != [] {
      assert LinkAt(s, blocks, |blocks| - 1);
    }
  }

  // Snapshots that certificates of one payload prove at the same height are the same.
  lemma {:induction false} OneBlockPerHeight(s: Snapshot, t: Snapshot, a: seq<Block>, b: seq<Block>)
    requires Linked(s, a) && Linked(t, b) && TrueHeight(s) && TrueHeight(t)
    requires Tip(s.payload, a) == Tip(t.payload, b) && s.height == t.height
    ensures s == t && a == b
  {
    TipHeight(s, a);
    TipHeight(t, b);
    OneHistory(s, t, a, b);
  }

  // ---------- The archive walk ----------

  datatype Archive = Archive(blocks: map<nat, Block>, finalizations: map<nat, Certificate>, retainedFrom: nat)

  datatype Evidence = NotRetained | Unavailable | Built(snapshot: Snapshot, proof: FinalityProof, encoded: seq<Byte>)

  ghost function Encodings(c: Codec, blocks: seq<Block>): nat {
    if blocks == [] then 0 else Encodings(c, blocks[..|blocks| - 1]) + |c.encodeBlock(blocks[|blocks| - 1])|
  }

  // The archive's blocks at the k heights above the snapshot.
  ghost predicate Stretch(a: Archive, s: Snapshot, blocks: seq<Block>) {
    forall j :: 0 <= j < |blocks| ==> OnArchive(a, s, blocks, j)
  }

  // The walk took step j: no certificate yet, and a linked child in the archive.
  ghost predicate OnArchive(a: Archive, s: Snapshot, blocks: seq<Block>, j: nat) {
    && j < |blocks|
    && s.height + j !in a.finalizations
    && s.height + j + 1 in a.blocks && a.blocks[s.height + j + 1] == blocks[j]
  }

  ghost predicate Walked(c: Codec, a: Archive, s: Snapshot, blocks: seq<Block>) {
    && |blocks| <= MAX_FINALITY_DESCENDANTS && Encodings(c, blocks) <= MAX_FINALITY_PROOF_BYTES
    && Linked(s, blocks) && Stretch(a, s, blocks)
  }

  // The walk ends at the nearest certificate, which certifies the block it stands on.
  ghost predicate Ends(a: Archive, s: Snapshot, first: Block, blocks: seq<Block>) {
    && s.height + |blocks| in a.finalizations
    && a.finalizations[s.height + |blocks|].payload == Tip(s.payload, blocks)
    && a.finalizations[s.height + |blocks|].round == Last(first, blocks).round
  }

  function Last(first: Block, blocks: seq<Block>): Block {
    if blocks == [] then first else blocks[|blocks| - 1]
  }

  ghost predicate Provable(c: Codec, a: Archive, first: Block, blocks: seq<Block>) {
    var s := Snapshot(first.height, Digest(first));
    && Walked(c, a, s, blocks) && Ends(a, s, first, blocks)
    && Encodable(c, c.encodeCertificate(a.finalizations[s.height + |blocks|]), blocks)
  }

  // Two walks over one archive agree as far as they both go.
  lemma {:induction false} SameWalk(a: Archive, s: Snapshot, x: seq<Block>, y: seq<Block>)
    requires Stretch(a, s, x) && Stretch(a, s, y) && |x| <= |y|
    ensures x <= y
  {
    forall j | 0 <= j < |x| ensures x[j] == y[j] {
      assert OnArchive(a, s, x, j) && OnArchive(a, s, y, j);
    }
  }

  lemma {:induction false} EncodingsGrow(c: Codec, blocks: seq<Block>, k: nat)
    requires k <= |blocks|
    ensures Encodings(c, blocks[..k]) <= Encodings(c, blocks)
    decreases |blocks|
  {
    if k == |blocks| {
      assert blocks[..k] == blocks;
    } else {
      assert blocks[..|blocks| - 1][..k] == blocks[..k];
      EncodingsGrow(c, blocks[..|blocks| - 1], k);
    }
  }

  lemma {:induction false} Uncertified(a: Archive, s: Snapshot, blocks: seq<Block>, j: nat)
    requires Stretch(a, s, blocks) && j < |blocks|
    ensures s.height + j !in a.finalizations
  {
    assert OnArchive(a, s, blocks, j);
  }

  // The archive's next block continues the walk.
  ghost predicate CanExtend(c: Codec, a: Archive, s: Snapshot, x: seq<Block>) {
    && |x| < MAX_FINALITY_DESCENDANTS && s.height + |x| < U64_MAX
    && s.height + |x| + 1 in a.blocks
    && var child := a.blocks[s.height + |x| + 1];
       && child.height == s.height + |x| + 1 && child.parent == Tip(s.payload, x)
       && Encodings(c, x) + |c.encodeBlock(child)| <= MAX_FINALITY_PROOF_BYTES
  }

  // Where a walk stands without a certificate and cannot go on, nothing is provable.
  lemma {:induction false} MustExtend(c: Codec, a: Archive, s: Snapshot, first: Block, x: seq<Block>, y: seq<Block>)
    requires Walked(c, a, s, x) && s.height + |x| !in a.finalizations
    requires Walked(c, a, s, y) && Ends(a, s, first, y)
    ensures CanExtend(c, a, s, x)
  {
    if |y| < |x| {
      Uncertified(a, s, x, |y|);
    } else {
      SameWalk(a, s, x, y);
      EncodingsGrow(c, y, |x| + 1);
      assert y[..|x| + 1][..|x|] == x == y[..|x|];
      assert OnArchive(a, s, y, |x|) && LinkAt(s, y, |x|);
    }
  }

  lemma {:induction false} Stuck(c: Codec, a: Archive, first: Block, x: seq<Block>)
    requires Walked(c, a, Snapshot(first.height, Digest(first)), x)
    requires first.height + |x| !in a.finalizations && !CanExtend(c, a, Snapshot(first.height, Digest(first)), x)
    ensures forall y :: !Provable(c, a, first, y)
  {
    forall y ensures !Provable(c, a, first, y) {
      if Provable(c, a, first, y) {
        MustExtend(c, a, Snapshot(first.height, Digest(first)), first, x, y);
      }
    }
  }

  lemma {:induction false} WalkOn(c: Codec, a: Archive, s: Snapshot, x: seq<Block>)
    requires Walked(c, a, s, x) && s.height + |x| !in a.finalizations && CanExtend(c, a, s, x)
    ensures var child := a.blocks[s.height + |x| + 1];
            Walked(c, a, s, x + [child]) && Encodings(c, x + [child]) == Encodings(c, x) + |c.encodeBlock(child)|
  {
    var child := a.blocks[s.height + |x| + 1];
    var y := x + [child];
    assert y[..|x|] == x;
    forall j | 0 <= j < |y| ensures OnArchive(a, s, y, j) && LinkAt(s, y, j) {
      if j < |x| {
        assert OnArchive(a, s, x, j) && LinkAt(s, x, j);
        assert y[..j] == x[..j];
      }
    }
  }

  lemma {:induction false} OnlyWalk(c: Codec, a: Archive, s: Snapshot, first: Block, x: seq<Block>, y: seq<Block>)
    requires Walked(c, a, s, x) && s.height + |x| in a.finalizations
    requires Walked(c, a, s, y) && Ends(a, s, first, y)
    ensures x == y
  {
    if |x| < |y| {
      Uncertified(a, s, y, |x|);
    } else if |y| < |x| {
      Uncertified(a, s, x, |y|);
    } else {
      SameWalk(a, s, x, y);
    }
  }

  // The walk through the archive, up to the nearest certificate.
  method Ascend(c: Codec, a: Archive, block: Block)
    returns (r: Option<seq<Block>>)
    ensures r.None? ==> forall y :: !Provable(c, a, block, y)
    ensures r.Some? ==>
              && Walked(c, a, Snapshot(block.height, Digest(block)), r.value)
              && block.height + |r.value| in a.finalizations
              && Last(block, r.value).height == block.height + |r.value|
  {
    ghost var s := Snapshot(block.height, Digest(block));
    var descendants: seq<Block>, candidate, proofBytes := [], block, 0;
    while candidate.height !in a.finalizations
      invariant Walked(c, a, s, descendants) && proofBytes == Encodings(c, descendants)
      invariant candidate == Last(block, descendants) && candidate.height == s.height + |descendants|
      decreases MAX_FINALITY_DESCENDANTS - |descendants|
    {
      if |descendants| >= MAX_FINALITY_DESCENDANTS || candidate.height == U64_MAX {
        Stuck(c, a, block, descendants);
        return None;
      }
      var next: nat := candidate.height + 1;
      if next !in a.blocks {
        Stuck(c, a, block, descendants);
        return None;
      }
      var child := a.blocks[next];
      if child.height != next || child.parent != Digest(candidate) {
        Stuck(c, a, block, descendants);
        return None;
      }
      if proofBytes + |c.encodeBlock(child)| > MAX_FINALITY_PROOF_BYTES {
        Stuck(c, a, block, descendants);
        return None;
      }
      WalkOn(c, a, s, descendants);
      proofBytes := proofBytes + |c.encodeBlock(child)|;
      descendants := descendants + [child];
      candidate := child;
    }
    return Some(descendants);
  }

  // The archive walk succeeds exactly when some stretch of the archive is provable, and
  // then it gives that stretch, with the nearest certificate.
  method FinalizedBlockAt(c: Codec, a: Archive, height: nat, payload: Payload)
    returns (r: Evidence)
    ensures r.NotRetained? <==> height < a.retainedFrom
    ensures r.Built? <==>
              && height >= a.retainedFrom && height in a.blocks && Digest(a.blocks[height]) == payload
              && exists blocks :: Provable(c, a, a.blocks[height], blocks)
    ensures r.Built? ==>
              && r.snapshot == Snapshot(a.blocks[height].height, payload)
              && Provable(c, a, a.blocks[height], r.proof.descendants)
              && r.proof.certificate == a.finalizations[r.snapshot.height + |r.proof.descendants|]
              && r.encoded == Layout(c, c.encodeCertificate(r.proof.certificate), r.proof.descendants)
  {
    if height < a.retainedFrom {
      return NotRetained;
    }
    if height !in a.blocks || Digest(a.blocks[height]) != payload {
      return Unavailable;
    }
    var block := a.blocks[height];
    var walk := Ascend(c, a, block);
    if walk.None? {
      return Unavailable;
    }
    var descendants := walk.value;
    var candidate := Last(block, descendants);
    forall y | Provable(c, a, block, y) ensures y == descendants {
      OnlyWalk(c, a, Snapshot(block.height, payload), block, descendants, y);
    }
    var finalization := a.finalizations[candidate.height];
    if finalization.payload != Digest(candidate) || finalization.round != candidate.round {
      return Unavailable;
    }
    var encoded := Encode(c, c.encodeCertificate(finalization), descendants);
    if encoded.None? {
      return Unavailable;
    }
    assert Provable(c, a, block, descendants);
    return Built(Snapshot(block.height, Digest(block)), FinalityProof(finalization, descendants), encoded.value);
  }

  // Evidence the archive walk builds passes the verifier's height, parent and payload
  // checks within 256 descendants; a good signature then leaves only the parent view of a
  // terminal descendant, which the walk does not compare.
  lemma {:induction false} BuiltVerifies(
    c: Codec, a: Archive, first: Block, blocks: seq<Block>,
    signed: Certificate -> bool)
    requires Provable(c, a, first, blocks)
    ensures var s := Snapshot(first.height, Digest(first));
            var p := FinalityProof(a.finalizations[s.height + |blocks|], blocks);
            && Linked(s, blocks) && |blocks| <= MAX_FINALITY_DESCENDANTS
            && p.certificate.payload == Tip(s.payload, blocks)
            && Ancestor(p.certificate.payload, |blocks|) == Some(s.payload)
            && (Verifies(p, s, signed) <==>
                  && signed(p.certificate)
                  && (blocks != [] ==> p.certificate.parentView == blocks[|blocks| - 1].parentView))
  {
    AncestorOfTip(Snapshot(first.height, Digest(first)), blocks);
  }

  // An archive whose certificate names another parent view: evidence is built and refused.
  lemma {:induction false} ParentViewUnchecked(
    c: Codec, first: Block, round: nat, view: nat,
    signed: Certificate -> bool)
    requires first.height < U64_MAX
    requires var child := Block(first.height + 1, Digest(first), round, view, []);
             var certificate := Certificate(Digest(child), round, view + 1, 0);
             |c.encodeBlock(child)| <= 1000 && |c.encodeCertificate(certificate)| <= 1000
    ensures var child := Block(first.height + 1, Digest(first), round, view, []);
            var certificate := Certificate(Digest(child), round, view + 1, 0);
            var a := Archive(map[first.height := first, first.height + 1 := child],
                map[first.height + 1 := certificate], 0);
            && Provable(c, a, first, [child])
            && !Verifies(FinalityProof(certificate, [child]), Snapshot(first.height, Digest(first)), signed)
  {
    var child := Block(first.height + 1, Digest(first), round, view, []);
    var certificate := Certificate(Digest(child), round, view + 1, 0);
    var a := Archive(map[first.height := first, first.height + 1 := child], map[first.height + 1 := certificate], 0);
    var s := Snapshot(first.height, Digest(first));
    assert Encodings(c, []) == 0 && [child][..0] == [];
    assert LinkAt(s, [child], 0) && OnArchive(a, s, [child], 0);
    assert Encodings(c, [child]) == |c.encodeBlock(child)|;
    assert [child][1..] == [] && FramedAll(c, [child]) == Framed(c.encodeBlock(child));
    assert Encodable(c, c.encodeCertificate(certificate), [child]);
  }

  // The light client also compares the certificate's context with the snapshot's own block
  // when there is no descendant.
  ghost predicate ClientVerifies(p: FinalityProof, block: Block, signed: Certificate -> bool) {
    && Verifies(p, Snapshot(block.height, Digest(block)), signed)
    && ContextMatches(p, Last(block, p.descendants))
  }

  // So what the archive walk builds passes the client if and only if it is signed and the
  // parent view is that of the certified block, direct certificates included.
  lemma {:induction false} BuiltClientVerifies(
    c: Codec, a: Archive, first: Block, blocks: seq<Block>, signed: Certificate -> bool)
    requires Provable(c, a, first, blocks)
    ensures var p := FinalityProof(a.finalizations[first.height + |blocks|], blocks);
            ClientVerifies(p, first, signed) <==>
              signed(p.certificate) && p.certificate.parentView == Last(first, blocks).parentView
  {
    BuiltVerifies(c, a, first, blocks, signed);
  }

  // What the archive walk encodes, the verifier decodes as the very proof that was built,
  // if and only if the certificate is within the bound.
  lemma {:induction false} BuiltDecodes(c: Codec, a: Archive, first: Block, blocks: seq<Block>)
    requires Lawful(c) && Provable(c, a, first, blocks)
    ensures var p := FinalityProof(a.finalizations[first.height + |blocks|], blocks);
            && Sendable(c, p)
            && (Received(c, Sent(c, p)) == Some(p) <==> |c.encodeCertificate(p.certificate)| <= MAX_CERTIFICATE_BYTES)
  {
    ReceivedAsSent(c, FinalityProof(a.finalizations[first.height + |blocks|], blocks));
  }
}
