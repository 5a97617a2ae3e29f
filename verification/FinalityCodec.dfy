/**
 The wire form of a finality proof: a magic prefix, a length-framed certificate, a count
 and that many length-framed descendant blocks.
 Source: crates/chain/src/finality_proof.rs.
 */
module FinalityCodec {
  import opened Wrappers

  type Byte = x: int | 0 <= x < 256

  const MAGIC: seq<Byte> :=
    [0xff, 0xff, 0xff, 0xff, 0xff, 0xff, 0xff, 0xff, 0xff, 0xff, 0x48, 0x4c, 0x53, 0x46, 0x01]
  const MAX_FINALITY_PROOF_BYTES: nat := 3 * 1024 * 1024
  const MAX_FINALITY_DESCENDANTS: nat := 256
  const MAX_CERTIFICATE_BYTES: nat := 4096
  const U32_SIZE: nat := 0x1_0000_0000

  const U64_MAX: nat := 0xFFFF_FFFF_FFFF_FFFF

  type U64 = x: nat | x <= U64_MAX

  // A payload is the collision-free hash of a block's complete encoding.
  datatype Payload = Foreign(tag: nat) | BlockHash(block: Block)

  datatype Block = Block(height: U64, parent: Payload, round: nat, parentView: nat, content: seq<Byte>)

  datatype Certificate = Certificate(payload: Payload, round: nat, parentView: nat, signature: nat)

  datatype FinalityProof = FinalityProof(certificate: Certificate, descendants: seq<Block>)

  // The codecs of blocks and certificates, which belong to the consensus library.
  datatype Codec = Codec(
    encodeBlock: Block -> seq<Byte>,
    decodeBlock: seq<Byte> -> Option<Block>,
    encodeCertificate: Certificate -> seq<Byte>,
    decodeCertificate: seq<Byte> -> Option<Certificate>)

  // Blocks and certificates decode from their own encodings. Other bytes may decode too.
  ghost predicate Lawful(c: Codec) {
    && (forall b :: c.decodeBlock(c.encodeBlock(b)) == Some(b))
    && (forall f :: c.decodeCertificate(c.encodeCertificate(f)) == Some(f))
  }

  // ---------- Frames ----------

  function U32(n: nat): seq<Byte>
    requires n < U32_SIZE
  {
    [n / 0x100_0000, n / 0x1_0000 % 256, n / 256 % 256, n % 256]
  }

  function FromU32(b: seq<Byte>): nat
    requires |b| == 4
  {
    var x: int, y: int, z: int, w: int := b[0], b[1], b[2], b[3];
    x * 0x100_0000 + y * 0x1_0000 + z * 256 + w
  }

  lemma {:induction false} U32RoundTrip(n: nat)
    requires n < U32_SIZE
    ensures FromU32(U32(n)) == n
  {
    assert n / 0x1_0000 == n / 0x100_0000 * 256 + n / 0x1_0000 % 256;
    assert n / 256 == n / 0x1_0000 * 256 + n / 256 % 256;
  }

  lemma {:induction false} U32Canonical(b: seq<Byte>)
    requires |b| == 4
    ensures FromU32(b) < U32_SIZE && U32(FromU32(b)) == b
  {
    var n := FromU32(b);
    var x: int, y: int, z: int := b[0], b[1], b[2];
    assert n / 256 == x * 0x1_0000 + y * 256 + z;
    assert n / 0x1_0000 == x * 256 + y;
    assert n / 0x100_0000 == x;
  }

  function Framed(b: seq<Byte>): seq<Byte>
    requires |b| < U32_SIZE
  {
    U32(|b|) + b
  }

  ghost predicate Frameable(c: Codec, blocks: seq<Block>) {
    forall i :: 0 <= i < |blocks| ==> |c.encodeBlock(blocks[i])| < U32_SIZE
  }

  ghost function FramedAll(c: Codec, blocks: seq<Block>): seq<Byte>
    requires Frameable(c, blocks)
  {
    if blocks == [] then [] else Framed(c.encodeBlock(blocks[0])) + FramedAll(c, blocks[1..])
  }

  ghost function Layout(c: Codec, certificate: seq<Byte>, blocks: seq<Block>): seq<Byte>
    requires |certificate| < U32_SIZE && |blocks| < U32_SIZE && Frameable(c, blocks)
  {
    MAGIC + Framed(certificate) + U32(|blocks|) + FramedAll(c, blocks)
  }

  lemma {:induction false} FramedAllSnoc(c: Codec, blocks: seq<Block>, b: Block)
    requires Frameable(c, blocks + [b])
    ensures Frameable(c, blocks) && |c.encodeBlock(b)| < U32_SIZE
    ensures FramedAll(c, blocks + [b]) == FramedAll(c, blocks) + Framed(c.encodeBlock(b))
  {
    assert (blocks + [b])[|blocks|] == b;
    assert forall i :: 0 <= i < |blocks| ==> blocks[i] == (blocks + [b])[i];
    if blocks == [] {
      assert [b][1..] == [];
      assert FramedAll(c, [b]) == Framed(c.encodeBlock(b));
    } else {
      assert (blocks + [b])[1..] == blocks[1..] + [b];
      FramedAllSnoc(c, blocks[1..], b);
    }
  }

  // ---------- Reading ----------

  function TakeU32(r: seq<Byte>): Option<(nat, seq<Byte>)> {
    if |r| < 4 then None else Some((FromU32(r[..4]), r[4..]))
  }

  function TakeBytes(r: seq<Byte>): Option<(seq<Byte>, seq<Byte>)> {
    match TakeU32(r)
    case None => None
    case Some((len, tail)) => if |tail| < len then None else Some((tail[..len], tail[len..]))
  }

  // A frame is read back exactly, and only a frame is read.
  lemma {:induction false} TakeU32Exact(n: nat, tail: seq<Byte>)
    requires n < U32_SIZE
    ensures TakeU32(U32(n) + tail) == Some((n, tail))
  {
    assert (U32(n) + tail)[..4] == U32(n) && (U32(n) + tail)[4..] == tail;
    U32RoundTrip(n);
  }

  lemma {:induction false} TakeBytesExact(b: seq<Byte>, tail: seq<Byte>)
    requires |b| < U32_SIZE
    ensures TakeBytes(Framed(b) + tail) == Some((b, tail))
  {
    assert Framed(b) + tail == U32(|b|) + (b + tail);
    TakeU32Exact(|b|, b + tail);
    assert (b + tail)[..|b|] == b && (b + tail)[|b|..] == tail;
  }

  lemma {:induction false} TakeU32Only(r: seq<Byte>)
    ensures TakeU32(r).Some? ==>
              TakeU32(r).value.0 < U32_SIZE && r == U32(TakeU32(r).value.0) + TakeU32(r).value.1
  {
    if |r| >= 4 {
      U32Canonical(r[..4]);
      assert r == r[..4] + r[4..];
    }
  }

  lemma {:induction false} TakeBytesOnly(r: seq<Byte>)
    ensures TakeBytes(r).Some? ==>
              |TakeBytes(r).value.0| < U32_SIZE && r == Framed(TakeBytes(r).value.0) + TakeBytes(r).value.1
  {
    TakeU32Only(r);
    match TakeU32(r)
    case None =>
    case Some((len, tail)) =>
      if |tail| >= len {
        assert tail == tail[..len] + tail[len..];
        assert r == U32(len) + tail[..len] + tail[len..];
      }
  }

  // One descendant: a frame whose bytes are the canonical encoding of a block.
  function TakeBlock(c: Codec, r: seq<Byte>): Option<(Block, seq<Byte>)> {
    match TakeBytes(r)
    case None => None
    case Some((bytes, tail)) =>
      match c.decodeBlock(bytes)
      case None => None
      case Some(block) => if c.encodeBlock(block) != bytes then None else Some((block, tail))
  }

  function TakeBlocks(c: Codec, r: seq<Byte>, n: nat): Option<(seq<Block>, seq<Byte>)>
    decreases n
  {
    if n == 0 then Some(([], r))
    else
      match TakeBlock(c, r)
      case None => None
      case Some((block, tail)) =>
        match TakeBlocks(c, tail, n - 1)
        case None => None
        case Some((rest, end)) => Some(([block] + rest, end))
  }

  lemma {:induction false} TakeBlocksExact(c: Codec, blocks: seq<Block>, tail: seq<Byte>)
    requires Lawful(c) && Frameable(c, blocks)
    ensures TakeBlocks(c, FramedAll(c, blocks) + tail, |blocks|) == Some((blocks, tail))
    decreases |blocks|
  {
    if blocks == [] {
      assert FramedAll(c, blocks) + tail == tail;
    } else {
      var bytes, rest := c.encodeBlock(blocks[0]), FramedAll(c, blocks[1..]) + tail;
      assert FramedAll(c, blocks) + tail == Framed(bytes) + rest;
      TakeBytesExact(bytes, rest);
      TakeBlocksExact(c, blocks[1..], tail);
      assert blocks == [blocks[0]] + blocks[1..];
    }
  }

  lemma {:induction false} TakeBlocksOnly(c: Codec, r: seq<Byte>, n: nat)
    requires TakeBlocks(c, r, n).Some?
    ensures var (blocks, end) := TakeBlocks(c, r, n).value;
            |blocks| == n && Frameable(c, blocks) && r == FramedAll(c, blocks) + end
    decreases n
  {
    if n > 0 {
      var (block, tail) := TakeBlock(c, r).value;
      TakeBytesOnly(r);
      TakeBlocksOnly(c, tail, n - 1);
      var (rest, end) := TakeBlocks(c, tail, n - 1).value;
      var blocks := [block] + rest;
      assert blocks[1..] == rest;
      assert Frameable(c, blocks);
      assert r == Framed(c.encodeBlock(block)) + (FramedAll(c, rest) + end);
    }
  }

  // ---------- Decoding and encoding ----------

  // The proofs the wire form admits, said without reading any bytes.
  ghost predicate Wire(c: Codec, encoded: seq<Byte>, certificate: seq<Byte>, blocks: seq<Block>) {
    && |encoded| <= MAX_FINALITY_PROOF_BYTES
    && |certificate| <= MAX_CERTIFICATE_BYTES && c.decodeCertificate(certificate).Some?
    && |blocks| <= MAX_FINALITY_DESCENDANTS && Frameable(c, blocks)
    && encoded == Layout(c, certificate, blocks)
  }

  // Decoding as the reader performs it, keeping the certificate's bytes.
  function Parse(c: Codec, encoded: seq<Byte>): Option<(seq<Byte>, seq<Block>)> {
    if |encoded| > MAX_FINALITY_PROOF_BYTES || !(MAGIC <= encoded) then None
    else
      match TakeBytes(encoded[|MAGIC|..])
      case None => None
      case Some((certificate, r)) =>
        if |certificate| > MAX_CERTIFICATE_BYTES || c.decodeCertificate(certificate).None? then None
        else
          match TakeU32(r)
          case None => None
          case Some((count, r)) =>
            if count > MAX_FINALITY_DESCENDANTS then None
            else
              match TakeBlocks(c, r, count)
              case None => None
              case Some((blocks, end)) => if end != [] then None else Some((certificate, blocks))
  }

  lemma {:induction false} ParseAccepts(c: Codec, encoded: seq<Byte>, certificate: seq<Byte>, blocks: seq<Block>)
    requires Lawful(c) && Wire(c, encoded, certificate, blocks)
    ensures Parse(c, encoded) == Some((certificate, blocks))
  {
    var body := U32(|blocks|) + FramedAll(c, blocks);
    assert encoded == MAGIC + (Framed(certificate) + body);
    assert encoded[|MAGIC|..] == Framed(certificate) + body;
    TakeBytesExact(certificate, body);
    TakeU32Exact(|blocks|, FramedAll(c, blocks));
    assert FramedAll(c, blocks) + [] == FramedAll(c, blocks);
    TakeBlocksExact(c, blocks, []);
  }

  lemma {:induction false} ParseSound(c: Codec, encoded: seq<Byte>)
    requires Parse(c, encoded).Some?
    ensures Wire(c, encoded, Parse(c, encoded).value.0, Parse(c, encoded).value.1)
  {
    var r0 := encoded[|MAGIC|..];
    var (certificate, r1) := TakeBytes(r0).value;
    var (count, r2) := TakeU32(r1).value;
    TakeBytesOnly(r0);
    TakeU32Only(r1);
    TakeBlocksOnly(c, r2, count);
    var (blocks, end) := TakeBlocks(c, r2, count).value;
    assert r2 == FramedAll(c, blocks);
    assert encoded == MAGIC + r0;
    assert encoded == MAGIC + (Framed(certificate) + (U32(count) + r2));
  }

  // Decoding is exact: it yields a certificate and blocks if and only if the bytes are
  // their wire form, and then they are the only ones.
  lemma {:induction false} ParseExact(c: Codec, encoded: seq<Byte>, certificate: seq<Byte>, blocks: seq<Block>)
    requires Lawful(c)
    ensures Parse(c, encoded) == Some((certificate, blocks)) <==> Wire(c, encoded, certificate, blocks)
  {
    if Wire(c, encoded, certificate, blocks) {
      ParseAccepts(c, encoded, certificate, blocks);
    }
    if Parse(c, encoded).Some? {
      ParseSound(c, encoded);
    }
  }

  method Decode(c: Codec, encoded: seq<Byte>) returns (r: Option<FinalityProof>)
    ensures r == Received(c, encoded)
  {
    if |encoded| > MAX_FINALITY_PROOF_BYTES || !(MAGIC <= encoded) {
      return None;
    }
    var reader := encoded[|MAGIC|..];
    var framed := TakeBytes(reader);
    if framed.None? {
      return None;
    }
    var bytes := framed.value.0;
    reader := framed.value.1;
    if |bytes| > MAX_CERTIFICATE_BYTES {
      return None;
    }
    var certificate := c.decodeCertificate(bytes);
    if certificate.None? {
      return None;
    }
    var counted := TakeU32(reader);
    if counted.None? || counted.value.0 > MAX_FINALITY_DESCENDANTS {
      return None;
    }
    reader := counted.value.1;
    var descendants, complete := ReadDescendants(c, reader, counted.value.0);
    if complete.None? || complete.value != [] {
      return None;
    }
    return Some(FinalityProof(certificate.value, descendants));
  }

  ghost function Prepend(done: seq<Block>, rest: Option<(seq<Block>, seq<Byte>)>): Option<(seq<Block>, seq<Byte>)> {
    match rest
    case None => None
    case Some((blocks, end)) => Some((done + blocks, end))
  }

  lemma {:induction false} PrependOne(done: seq<Block>, b: Block, rest: Option<(seq<Block>, seq<Byte>)>)
    ensures Prepend([], rest) == rest
    ensures Prepend(done + [b], rest) == Prepend(done, Prepend([b], rest))
  {
    if rest.Some? {
      assert [] + rest.value.0 == rest.value.0;
      assert done + [b] + rest.value.0 == done + ([b] + rest.value.0);
    }
  }

  method ReadDescendants(
    c: Codec, input: seq<Byte>, count: nat) returns (descendants: seq<Block>, tail: Option<seq<Byte>>)
    ensures TakeBlocks(c, input, count) == if tail.Some? then Some((descendants, tail.value)) else None
  {
    descendants := [];
    var reader := input;
    assert Prepend([], TakeBlocks(c, input, count)) == TakeBlocks(c, input, count) by {
      PrependOne([], Block(0, Foreign(0), 0, 0, []), TakeBlocks(c, input, count));
    }
    for i := 0 to count
      invariant TakeBlocks(c, input, count) == Prepend(descendants, TakeBlocks(c, reader, count - i))
    {
      var framed := TakeBytes(reader);
      if framed.None? {
        return descendants, None;
      }
      var block := c.decodeBlock(framed.value.0);
      if block.None? || c.encodeBlock(block.value) != framed.value.0 {
        return descendants, None;
      }
      PrependOne(descendants, block.value, TakeBlocks(c, framed.value.1, count - i - 1));
      descendants := descendants + [block.value];
      reader := framed.value.1;
    }
    assert descendants + [] == descendants;
    return descendants, Some(reader);
  }

  // When encoding succeeds. The count that follows the certificate is not checked against
  // the size limit, which shows only when there is no descendant after it.
  ghost predicate Encodable(c: Codec, certificate: seq<Byte>, blocks: seq<Block>) {
    && |blocks| <= MAX_FINALITY_DESCENDANTS
    && |certificate| < U32_SIZE && Frameable(c, blocks)
    && |Layout(c, certificate, blocks)| <= MAX_FINALITY_PROOF_BYTES + (if blocks == [] then 4 else 0)
  }

  method AppendBytes(out: seq<Byte>, bytes: seq<Byte>) returns (r: Option<seq<Byte>>)
    ensures r.Some? <==> |out| + 4 + |bytes| <= MAX_FINALITY_PROOF_BYTES
    ensures r.Some? ==> |bytes| < U32_SIZE && r.value == out + Framed(bytes)
  {
    if |out| + 4 + |bytes| > MAX_FINALITY_PROOF_BYTES {
      return None;
    }
    return Some(out + U32(|bytes|) + bytes);
  }

  lemma {:induction false} FramedAllGrows(c: Codec, blocks: seq<Block>, i: nat)
    requires Frameable(c, blocks) && i <= |blocks|
    ensures Frameable(c, blocks[..i]) && |FramedAll(c, blocks[..i])| <= |FramedAll(c, blocks)|
    ensures i < |blocks| ==> |FramedAll(c, blocks[..i])| + 4 + |c.encodeBlock(blocks[i])| <= |FramedAll(c, blocks)|
    decreases |blocks| - i
  {
    if i == |blocks| {
      assert blocks[..i] == blocks;
    } else {
      assert blocks[..i + 1] == blocks[..i] + [blocks[i]];
      FramedAllGrows(c, blocks, i + 1);
      FramedAllSnoc(c, blocks[..i], blocks[i]);
    }
  }

  method Encode(c: Codec, certificate: seq<Byte>, blocks: seq<Block>) returns (r: Option<seq<Byte>>)
    ensures r.Some? <==> Encodable(c, certificate, blocks)
    ensures r.Some? ==> r.value == Layout(c, certificate, blocks)
  {
    if |blocks| > MAX_FINALITY_DESCENDANTS {
      return None;
    }
    var head := AppendBytes(MAGIC, certificate);
    if head.None? {
      return None;
    }
    var bytes := head.value + U32(|blocks|);
    for i := 0 to |blocks|
      invariant Frameable(c, blocks[..i])
      invariant bytes == MAGIC + Framed(certificate) + U32(|blocks|) + FramedAll(c, blocks[..i])
      invariant i > 0 ==> |bytes| <= MAX_FINALITY_PROOF_BYTES
    {
      var next := AppendBytes(bytes, c.encodeBlock(blocks[i]));
      if next.None? {
        if Frameable(c, blocks) {
          FramedAllGrows(c, blocks, i);
        }
        return None;
      }
      assert blocks[..i + 1] == blocks[..i] + [blocks[i]];
      FramedAllSnoc(c, blocks[..i], blocks[i]);
      bytes := next.value;
    }
    assert blocks[..|blocks|] == blocks;
    return Some(bytes);
  }

  // What encoding wrote, decoding reads back, if and only if the certificate is within
  // the bound that only decoding checks.
  lemma {:induction false} DecodeEncode(c: Codec, certificate: seq<Byte>, blocks: seq<Block>)
    requires Lawful(c) && Encodable(c, certificate, blocks) && c.decodeCertificate(certificate).Some?
    ensures Parse(c, Layout(c, certificate, blocks)) == Some((certificate, blocks)) <==>
              |certificate| <= MAX_CERTIFICATE_BYTES
    ensures Parse(c, Layout(c, certificate, blocks)).None? <==> |certificate| > MAX_CERTIFICATE_BYTES
  {
    var encoded := Layout(c, certificate, blocks);
    ParseExact(c, encoded, certificate, blocks);
    if |certificate| > MAX_CERTIFICATE_BYTES && Parse(c, encoded).Some? {
      OversizedRefused(c, certificate, blocks);
    }
  }

  lemma {:induction false} OversizedRefused(c: Codec, certificate: seq<Byte>, blocks: seq<Block>)
    requires MAX_CERTIFICATE_BYTES < |certificate| < U32_SIZE && |blocks| < U32_SIZE && Frameable(c, blocks)
    ensures Parse(c, Layout(c, certificate, blocks)).None?
  {
    CertificateOf(c, certificate, blocks);
  }

  // What decoding accepts, encoding writes back byte for byte.
  lemma {:induction false} EncodeDecode(c: Codec, encoded: seq<Byte>)
    requires Parse(c, encoded).Some?
    ensures var (certificate, blocks) := Parse(c, encoded).value;
            Encodable(c, certificate, blocks) && Layout(c, certificate, blocks) == encoded
  {
    ParseSound(c, encoded);
  }

  // The certificate's bytes can be read off the wire form.
  lemma {:induction false} CertificateOf(c: Codec, certificate: seq<Byte>, blocks: seq<Block>)
    requires |certificate| < U32_SIZE && |blocks| < U32_SIZE && Frameable(c, blocks)
    ensures |Layout(c, certificate, blocks)| >= |MAGIC|
    ensures TakeBytes(Layout(c, certificate, blocks)[|MAGIC|..])
            == Some((certificate, U32(|blocks|) + FramedAll(c, blocks)))
  {
    var body := U32(|blocks|) + FramedAll(c, blocks);
    assert Layout(c, certificate, blocks) == MAGIC + (Framed(certificate) + body);
    assert Layout(c, certificate, blocks)[|MAGIC|..] == Framed(certificate) + body;
    TakeBytesExact(certificate, body);
  }

  // The decoded certificate's own bytes put in place of the received ones give the received
  // proof back if and only if the received certificate was in its own encoding.
  lemma {:induction false} ReencodeCertificate(c: Codec, encoded: seq<Byte>, own: seq<Byte>)
    requires Parse(c, encoded).Some? && |own| < U32_SIZE
    ensures var (certificate, blocks) := Parse(c, encoded).value;
            && |blocks| < U32_SIZE && Frameable(c, blocks)
            && (Layout(c, own, blocks) == encoded <==> own == certificate)
  {
    ParseSound(c, encoded);
    var (certificate, blocks) := Parse(c, encoded).value;
    CertificateOf(c, certificate, blocks);
    CertificateOf(c, own, blocks);
  }

  // The wire form a proof is given by encoding its certificate and its blocks.
  ghost predicate Sendable(c: Codec, p: FinalityProof) {
    Encodable(c, c.encodeCertificate(p.certificate), p.descendants)
  }

  ghost function Sent(c: Codec, p: FinalityProof): seq<Byte>
    requires Sendable(c, p)
  {
    Layout(c, c.encodeCertificate(p.certificate), p.descendants)
  }

  // What decoding returns, as a proof with its certificate decoded.
  ghost function Received(c: Codec, encoded: seq<Byte>): Option<FinalityProof> {
    match Parse(c, encoded)
    case None => None
    case Some((certificate, blocks)) =>
      if c.decodeCertificate(certificate).None? then None
      else Some(FinalityProof(c.decodeCertificate(certificate).value, blocks))
  }

  // A proof sent is the proof received, if and only if its certificate is within the bound.
  lemma {:induction false} ReceivedAsSent(c: Codec, p: FinalityProof)
    requires Lawful(c) && Sendable(c, p)
    ensures Received(c, Sent(c, p)) == Some(p) <==> |c.encodeCertificate(p.certificate)| <= MAX_CERTIFICATE_BYTES
  {
    DecodeEncode(c, c.encodeCertificate(p.certificate), p.descendants);
  }

  // A certificate one byte too long is a certificate: its bytes decode to it and it is sent.
  // The receiver then refuses the proof.
  lemma {:induction false} OversizedExample(c: Codec, f: Certificate)
    requires Lawful(c) && |c.encodeCertificate(f)| == MAX_CERTIFICATE_BYTES + 1
    ensures c.decodeCertificate(c.encodeCertificate(f)) == Some(f)
    ensures Sendable(c, FinalityProof(f, [])) && Received(c, Sent(c, FinalityProof(f, []))).None?
  {
    OversizedRefused(c, c.encodeCertificate(f), []);
  }

  // A proof received, sent on, is the same bytes if and only if its certificate came in its
  // own encoding; the blocks always do.
  lemma {:induction false} SentAsReceived(c: Codec, encoded: seq<Byte>)
    requires Received(c, encoded).Some? && Sendable(c, Received(c, encoded).value)
    ensures var p := Received(c, encoded).value;
            Sent(c, p) == encoded <==> c.encodeCertificate(p.certificate) == Parse(c, encoded).value.0
  {
    ReencodeCertificate(c, encoded, c.encodeCertificate(Received(c, encoded).value.certificate));
  }
}
