/**
 The owner replay index: coins and edges, their projections by owner, and the
 transactional, contiguous, exactly-once application of finalized blocks.
 Source: crates/chain/src/owner_index.rs.
 */
module OwnerIndex {
  import opened Wrappers

  type Owner = nat
  type Id = nat

  const HOLDING_COIN: nat := 0
  const HOLDING_DELEGATED: nat := 2

  datatype Coin = Coin(owner: Owner, delegate: Option<Owner>, value: nat)
  datatype Party = Party(owner: Owner, signer: Owner, payoutDelegate: Option<Owner>)
  datatype Parties = Parties(maker: Party, taker: Party)

  datatype Payout = Payout(id: Id, coin: Coin)

  // Transactions with the ids the kernel derives for their outputs.
  datatype Tx =
    | Open(edge: Id, funding: seq<Id>, parties: Parties)
    | Close(input: Id, outputs: seq<Payout>)
    | Reshape(inputs: seq<Id>, outputs: seq<Payout>)
    | Move

  // A block's digest covers its whole encoding, its parent's digest included.
  datatype Digest = GenesisDigest | OfBlock(block: Block)
  datatype Block = Block(height: nat, parent: Digest, txs: seq<Tx>, stateRoot: nat)

  datatype Cursor = Cursor(height: nat, payload: Digest, stateRoot: nat)

  datatype ApplyOutcome = Applied | Duplicate

  datatype IndexError =
    | HeightGap(current: nat, next: nat)
    | ConflictingHeight(height: nat)
    | ParentMismatch(height: nat)
    | ObjectNotFound(id: Id)
    | OutputCollision(id: Id)
    | WrongObjectKind(id: Id)

  // ---------- Coins and edges alone ----------

  datatype Ledger = Ledger(coins: map<Id, Coin>, edges: map<Id, Parties>)

  predicate Exists(l: Ledger, id: Id) {
    id in l.coins || id in l.edges
  }

  // The kind table is derived from two maps that never share an id.
  ghost predicate Disjoint(l: Ledger) {
    forall id :: !(id in l.coins && id in l.edges)
  }

  function InsertCoin(l: Ledger, p: Payout): Result<Ledger, IndexError> {
    if Exists(l, p.id) then Err(OutputCollision(p.id)) else Ok(l.(coins := l.coins[p.id := p.coin]))
  }

  function RemoveCoin(l: Ledger, id: Id): Result<Ledger, IndexError> {
    if id !in l.coins then Err(ObjectNotFound(id)) else Ok(l.(coins := l.coins - {id}))
  }

  function InsertEdge(l: Ledger, id: Id, parties: Parties): Result<Ledger, IndexError> {
    if Exists(l, id) then Err(OutputCollision(id)) else Ok(l.(edges := l.edges[id := parties]))
  }

  function RemoveEdge(l: Ledger, id: Id): Result<Ledger, IndexError> {
    if id !in l.edges then if id in l.coins then Err(WrongObjectKind(id)) else Err(ObjectNotFound(id))
    else Ok(l.(edges := l.edges - {id}))
  }

  function RemoveCoins(l: Ledger, ids: seq<Id>): Result<Ledger, IndexError> {
    if ids == [] then Ok(l)
    else
      var before :- RemoveCoins(l, ids[..|ids| - 1]);
      RemoveCoin(before, ids[|ids| - 1])
  }

  function InsertCoins(l: Ledger, outs: seq<Payout>): Result<Ledger, IndexError> {
    if outs == [] then Ok(l)
    else
      var before :- InsertCoins(l, outs[..|outs| - 1]);
      InsertCoin(before, outs[|outs| - 1])
  }

  function ApplyTx(l: Ledger, tx: Tx): Result<Ledger, IndexError> {
    match tx
    case Open(edge, funding, parties) =>
      if Exists(l, edge) then Err(OutputCollision(edge))
      else
        var spent :- RemoveCoins(l, funding);
        InsertEdge(spent, edge, parties)
    case Close(input, outputs) =>
      var closed :- RemoveEdge(l, input);
      InsertCoins(closed, outputs)
    case Reshape(inputs, outputs) =>
      var spent :- RemoveCoins(l, inputs);
      InsertCoins(spent, outputs)
    case Move => Ok(l)
  }

  function ApplyTxs(l: Ledger, txs: seq<Tx>): Result<Ledger, IndexError> {
    if txs == [] then Ok(l)
    else
      var before :- ApplyTxs(l, txs[..|txs| - 1]);
      ApplyTx(before, txs[|txs| - 1])
  }

  // Genesis coins are numbered by a 16-bit index; allocations past it are dropped.
  const GENESIS_LIMIT: nat := 0x1_0000

  function Seeded(genesis: seq<Payout>): seq<Payout> {
    if |genesis| <= GENESIS_LIMIT then genesis else genesis[..GENESIS_LIMIT]
  }

  // ---------- Deliveries, as values ----------

  datatype Index = Index(cursor: Cursor, ledger: Ledger)

  function BlockLedger(genesis: seq<Payout>, s: Index, b: Block): Result<Ledger, IndexError> {
    var start :- if s.cursor.height == 0 then InsertCoins(s.ledger, Seeded(genesis)) else Ok(s.ledger);
    ApplyTxs(start, b.txs)
  }

  function Deliver(genesis: seq<Payout>, s: Index, b: Block): (Result<ApplyOutcome, IndexError>, Index) {
    if b.height == s.cursor.height then
      (if OfBlock(b) == s.cursor.payload then Ok(Duplicate) else Err(ConflictingHeight(b.height)), s)
    else if b.height < s.cursor.height then (Ok(Duplicate), s)
    else if b.height != s.cursor.height + 1 then (Err(HeightGap(s.cursor.height, b.height)), s)
    else if b.parent != s.cursor.payload then (Err(ParentMismatch(b.height)), s)
    else
      match BlockLedger(genesis, s, b)
      case Err(e) => (Err(e), s)
      case Ok(l) => (Ok(Applied), Index(Cursor(b.height, OfBlock(b), b.stateRoot), l))
  }

  function Run(genesis: seq<Payout>, s: Index, ds: seq<Block>): Index {
    if ds == [] then s else Deliver(genesis, Run(genesis, s, ds[..|ds| - 1]), ds[|ds| - 1]).1
  }

  // The deliveries that were applied, in order.
  function AppliedChain(genesis: seq<Payout>, s: Index, ds: seq<Block>): seq<Block> {
    if ds == [] then []
    else
      var before, b := ds[..|ds| - 1], ds[|ds| - 1];
      AppliedChain(genesis, s, before)
      + if Deliver(genesis, Run(genesis, s, before), b).0 == Ok(Applied) then [b] else []
  }

  ghost function Tip(start: Digest, chain: seq<Block>): Digest {
    if chain == [] then start else OfBlock(chain[|chain| - 1])
  }

  // Each block names its predecessor's digest and the next height.
  ghost predicate Linked(start: Cursor, chain: seq<Block>) {
    chain == [] ||
    var before, b := chain[..|chain| - 1], chain[|chain| - 1];
    Linked(start, before) && b.parent == Tip(start.payload, before) && b.height == start.height + |chain|
  }

  // Applying every block of a chain once, from the start; None if any fails.
  ghost function Replay(genesis: seq<Payout>, s: Index, chain: seq<Block>): Option<Index> {
    if chain == [] then Some(s)
    else
      var b := chain[|chain| - 1];
      match Replay(genesis, s, chain[..|chain| - 1])
      case None => None
      case Some(prev) =>
        match BlockLedger(genesis, prev, b)
        case Err(_) => None
        case Ok(l) => Some(Index(Cursor(b.height, OfBlock(b), b.stateRoot), l))
  }

  // Exactly-once replay: whatever is delivered - repeats, stale heights, gaps, conflicts,
  // failing blocks - the state is that of one parent-linked chain applied once.
  lemma {:induction false} RunIsOneChain(genesis: seq<Payout>, s: Index, ds: seq<Block>)
    ensures var chain, out := AppliedChain(genesis, s, ds), Run(genesis, s, ds);
            && Linked(s.cursor, chain)
            && Replay(genesis, s, chain) == Some(out)
            && out.cursor.payload == Tip(s.cursor.payload, chain)
            && out.cursor.height == s.cursor.height + |chain|
  {
    if ds != [] {
      var before, b := ds[..|ds| - 1], ds[|ds| - 1];
      RunIsOneChain(genesis, s, before);
      var prev := AppliedChain(genesis, s, before);
      if Deliver(genesis, Run(genesis, s, before), b).0 == Ok(Applied) {
        assert (prev + [b])[..|prev|] == prev;
        assert AppliedChain(genesis, s, ds) == prev + [b];
      } else {
        assert AppliedChain(genesis, s, ds) == prev;
      }
    }
  }

  // A refused or repeated delivery changes nothing.
  lemma {:induction false} OnlyAppliedChanges(genesis: seq<Payout>, s: Index, b: Block)
    ensures Deliver(genesis, s, b).0 != Ok(Applied) ==> Deliver(genesis, s, b).1 == s
    ensures Deliver(genesis, s, b).0 == Ok(Applied) ==>
        Deliver(genesis, Deliver(genesis, s, b).1, b) == (Ok(Duplicate), Deliver(genesis, s, b).1)
  {
  }

  // A chain from genesis is determined by its tip.
  lemma {:induction false} LinkedUnique(start: Cursor, a: seq<Block>, b: seq<Block>)
    requires start.payload == GenesisDigest
    requires Linked(start, a) && Linked(start, b) && Tip(start.payload, a) == Tip(start.payload, b)
    ensures a == b
  {
    if a != [] && b != [] {
      LinkedUnique(start, a[..|a| - 1], b[..|b| - 1]);
      assert a == a[..|a| - 1] + [a[|a| - 1]] && b == b[..|b| - 1] + [b[|b| - 1]];
    }
  }

  // Two indexes at the same block hold the same coins and edges, however they got there.
  lemma {:induction false} SameCursorSameState(genesis: seq<Payout>, s: Index, ds: seq<Block>, es: seq<Block>)
    requires s.cursor.payload == GenesisDigest
    requires Run(genesis, s, ds).cursor.payload == Run(genesis, s, es).cursor.payload
    ensures Run(genesis, s, ds) == Run(genesis, s, es)
  {
    RunIsOneChain(genesis, s, ds);
    RunIsOneChain(genesis, s, es);
    LinkedUnique(s.cursor, AppliedChain(genesis, s, ds), AppliedChain(genesis, s, es));
  }

  // ---------- Projections ----------

  type CoinsByOwner = map<Owner, map<(nat, Id), nat>>
  type EdgesByOwner = map<Owner, set<Id>>

  datatype Share = Share(owner: Owner, kind: nat, balance: nat)

  function CoinHoldings(c: Coin): seq<Share> {
    [Share(c.owner, HOLDING_COIN, c.value)]
    + if c.delegate.Some? && c.delegate.value != c.owner then [Share(c.delegate.value, HOLDING_DELEGATED, 0)] else []
  }

  function PartyKeys(p: Party): set<Owner> {
    {p.owner, p.signer} + if p.payoutDelegate.Some? then {p.payoutDelegate.value} else {}
  }

  function EdgeKeys(e: Parties): set<Owner> {
    PartyKeys(e.maker) + PartyKeys(e.taker)
  }

  ghost function Held(m: CoinsByOwner, o: Owner, k: (nat, Id)): Option<nat> {
    if o in m then Lookup(m[o], k) else None
  }

  // What a coin with this id contributes under this owner and kind.
  ghost function Contribution(c: Coin, o: Owner, kind: nat): Option<nat> {
    if o == c.owner && kind == HOLDING_COIN then Some(c.value)
    else if o != c.owner && c.delegate == Some(o) && kind == HOLDING_DELEGATED then Some(0)
    else None
  }

  ghost function Expected(coins: map<Id, Coin>, o: Owner, k: (nat, Id)): Option<nat> {
    if k.1 in coins then Contribution(coins[k.1], o, k.0) else None
  }

  ghost predicate NoEmptyOwner(m: CoinsByOwner) {
    forall o :: o in m ==> m[o] != map[]
  }

  ghost predicate ProjectsCoins(m: CoinsByOwner, coins: map<Id, Coin>) {
    NoEmptyOwner(m) && forall o: Owner, k: (nat, Id) :: Held(m, o, k) == Expected(coins, o, k)
  }

  ghost predicate Listed(m: EdgesByOwner, o: Owner, id: Id) {
    o in m && id in m[o]
  }

  ghost predicate PartyTo(edges: map<Id, Parties>, o: Owner, id: Id) {
    id in edges && o in EdgeKeys(edges[id])
  }

  ghost predicate ProjectsEdges(m: EdgesByOwner, edges: map<Id, Parties>) {
    && (forall o :: o in m ==> m[o] != {})
    && (forall o: Owner, id: Id :: Listed(m, o, id) <==> PartyTo(edges, o, id))
  }

  // A projection is determined by what it projects.
  lemma {:induction false} CoinProjectionUnique(a: CoinsByOwner, b: CoinsByOwner, coins: map<Id, Coin>)
    requires ProjectsCoins(a, coins) && ProjectsCoins(b, coins)
    ensures a == b
  {
    forall o: Owner
      ensures o in a <==> o in b
      ensures o in a ==> a[o] == b[o]
    {
      forall k: (nat, Id)
        ensures Held(a, o, k) == Held(b, o, k)
      {
        assert Held(a, o, k) == Expected(coins, o, k) == Held(b, o, k);
      }
      if o in a {
        var k :| k in a[o];
        assert Held(a, o, k).Some?;
      }
      if o in b {
        var k :| k in b[o];
        assert Held(b, o, k).Some?;
      }
      if o in a {
        forall k: (nat, Id)
          ensures k in a[o] <==> k in b[o]
          ensures k in a[o] ==> a[o][k] == b[o][k]
        {
          assert Held(a, o, k) == Held(b, o, k);
        }
      }
    }
  }

  lemma {:induction false} EdgeProjectionUnique(a: EdgesByOwner, b: EdgesByOwner, edges: map<Id, Parties>)
    requires ProjectsEdges(a, edges) && ProjectsEdges(b, edges)
    ensures a == b
  {
    forall o: Owner
      ensures o in a <==> o in b
      ensures o in a ==> a[o] == b[o]
    {
      if o in a {
        var id :| id in a[o];
        assert Listed(a, o, id);
        assert Listed(b, o, id);
      }
      if o in b {
        var id :| id in b[o];
        assert Listed(b, o, id);
        assert Listed(a, o, id);
      }
      if o in a {
        forall id: Id
          ensures id in a[o] <==> id in b[o]
        {
          assert Listed(a, o, id) == PartyTo(edges, o, id);
          assert Listed(b, o, id) == PartyTo(edges, o, id);
        }
      }
    }
  }

  function AddHeld(m: CoinsByOwner, o: Owner, k: (nat, Id), v: nat): CoinsByOwner {
    var held: map<(nat, Id), nat> := if o in m then m[o] else map[];
    m[o := held[k := v]]
  }

  function DropHeld(m: CoinsByOwner, o: Owner, k: (nat, Id)): CoinsByOwner
    requires o in m
  {
    var held := m[o] - {k};
    if held == map[] then m - {o} else m[o := held]
  }

  lemma {:induction false} AddHeldExact(m: CoinsByOwner, o: Owner, k: (nat, Id), v: nat, p: Owner, j: (nat, Id))
    ensures Held(AddHeld(m, o, k, v), p, j) == if p == o && j == k then Some(v) else Held(m, p, j)
  {
  }

  lemma {:induction false} DropHeldExact(m: CoinsByOwner, o: Owner, k: (nat, Id), p: Owner, j: (nat, Id))
    requires o in m
    ensures Held(DropHeld(m, o, k), p, j) == if p == o && j == k then None else Held(m, p, j)
  {
    if p == o && j != k && j in m[o] {
      assert j in m[o] - {k};
    }
  }

  // The projection with the first n shares of a coin added or dropped.
  ghost function AfterShares(
    m: CoinsByOwner, shares: seq<Share>, id: Id, n: nat, adding: bool, o: Owner, k: (nat, Id)): Option<nat>
    requires n <= |shares|
    decreases |shares|, n
  {
    if n == 0 then Held(m, o, k)
    else if o == shares[n - 1].owner && k == (shares[n - 1].kind, id) then
      if adding then Some(shares[n - 1].balance) else None
    else AfterShares(m, shares, id, n - 1, adding, o, k)
  }

  lemma {:induction false} SharesOfCoin(
    m: CoinsByOwner, coins: map<Id, Coin>, id: Id, c: Coin, adding: bool, o: Owner, k: (nat, Id))
    requires ProjectsCoins(m, coins)
    requires if adding then id !in coins else id in coins && coins[id] == c
    ensures AfterShares(m, CoinHoldings(c), id, |CoinHoldings(c)|, adding, o, k)
            == Expected(if adding then coins[id := c] else coins - {id}, o, k)
  {
    var shares := CoinHoldings(c);
    assert Held(m, o, k) == Expected(coins, o, k);
    assert AfterShares(m, shares, id, 1, adding, o, k)
        == if o != c.owner || k != (HOLDING_COIN, id) then Held(m, o, k)
           else if adding then Some(c.value) else None by {
      assert AfterShares(m, shares, id, 0, adding, o, k) == Held(m, o, k);
    }
  }

  ghost predicate SharesDone(m: CoinsByOwner, before: CoinsByOwner, shares: seq<Share>, id: Id, n: nat, adding: bool)
    requires n <= |shares|
  {
    && NoEmptyOwner(m)
    && forall o: Owner, k: (nat, Id) :: Held(m, o, k) == AfterShares(before, shares, id, n, adding, o, k)
  }

  lemma {:induction false} AddShare(m: CoinsByOwner, before: CoinsByOwner, shares: seq<Share>, id: Id, n: nat)
    requires n < |shares| && SharesDone(m, before, shares, id, n, true)
    ensures SharesDone(AddHeld(m, shares[n].owner, (shares[n].kind, id), shares[n].balance), before, shares, id,
        n + 1, true)
  {
    assert NoEmptyOwner(AddHeld(m, shares[n].owner, (shares[n].kind, id), shares[n].balance)) by {
      assert (shares[n].kind, id) in AddHeld(m, shares[n].owner, (shares[n].kind, id),
          shares[n].balance)[shares[n].owner];
    }
    forall o: Owner, k: (nat, Id)
      ensures Held(AddHeld(m, shares[n].owner, (shares[n].kind, id), shares[n].balance), o, k)
              == AfterShares(before, shares, id, n + 1, true, o, k)
    {
      AddHeldExact(m, shares[n].owner, (shares[n].kind, id), shares[n].balance, o, k);
      assert Held(m, o, k) == AfterShares(before, shares, id, n, true, o, k);
    }
  }

  lemma {:induction false} DropShare(m: CoinsByOwner, before: CoinsByOwner, shares: seq<Share>, id: Id, n: nat)
    requires n < |shares| && SharesDone(m, before, shares, id, n, false) && shares[n].owner in m
    ensures SharesDone(DropHeld(m, shares[n].owner, (shares[n].kind, id)), before, shares, id, n + 1, false)
  {
    forall o: Owner, k: (nat, Id)
      ensures Held(DropHeld(m, shares[n].owner, (shares[n].kind, id)), o, k)
              == AfterShares(before, shares, id, n + 1, false, o, k)
    {
      DropHeldExact(m, shares[n].owner, (shares[n].kind, id), o, k);
      assert Held(m, o, k) == AfterShares(before, shares, id, n, false, o, k);
    }
  }

  // A share not dropped yet is still held, so removal never misses it.
  lemma {:induction false} ShareHeld(m: CoinsByOwner, before: CoinsByOwner, coins: map<Id, Coin>, id: Id, n: nat)
    requires ProjectsCoins(before, coins) && id in coins
    requires n < |CoinHoldings(coins[id])| && SharesDone(m, before, CoinHoldings(coins[id]), id, n, false)
    ensures var s := CoinHoldings(coins[id])[n]; s.owner in m && (s.kind, id) in m[s.owner]
  {
    var shares := CoinHoldings(coins[id]);
    var s := shares[n];
    assert Held(m, s.owner, (s.kind, id)) == AfterShares(before, shares, id, n, false, s.owner, (s.kind, id));
    assert Held(before, s.owner, (s.kind, id)) == Expected(coins, s.owner, (s.kind, id));
    if n == 1 {
      assert AfterShares(before, shares, id, 1, false, s.owner, (s.kind, id))
          == AfterShares(before, shares, id, 0, false, s.owner, (s.kind, id));
    }
  }

  // The projection with `id` added to or removed from some of its keys.
  ghost predicate KeysDone(m: EdgesByOwner, before: EdgesByOwner, id: Id, keys: set<Owner>, adding: bool) {
    && (forall o :: o in m ==> m[o] != {})
    && (forall o: Owner, i: Id ::
          Listed(m, o, i) <==> if i == id && o in keys then adding else Listed(before, o, i))
  }

  lemma {:induction false} AddKey(m: EdgesByOwner, before: EdgesByOwner, id: Id, keys: set<Owner>, o: Owner)
    requires KeysDone(m, before, id, keys, true)
    ensures KeysDone(m[o := (if o in m then m[o] else {}) + {id}], before, id, keys + {o}, true)
  {
    var next := m[o := (if o in m then m[o] else {}) + {id}];
    forall p: Owner, i: Id
      ensures Listed(next, p, i) <==> (Listed(m, p, i) || (p == o && i == id))
    {
    }
    assert id in next[o];
  }

  lemma {:induction false} DropKey(m: EdgesByOwner, before: EdgesByOwner, id: Id, keys: set<Owner>, o: Owner)
    requires KeysDone(m, before, id, keys, false) && o in m
    ensures KeysDone(if m[o] - {id} == {} then m - {o} else m[o := m[o] - {id}], before, id, keys + {o}, false)
  {
    var next := if m[o] - {id} == {} then m - {o} else m[o := m[o] - {id}];
    forall p: Owner, i: Id
      ensures Listed(next, p, i) <==> (Listed(m, p, i) && !(p == o && i == id))
    {
      if p == o && i != id && i in m[o] {
        assert i in m[o] - {id};
      }
    }
  }

  lemma {:induction false} EdgeAdded(
    m: EdgesByOwner, before: EdgesByOwner, edges: map<Id, Parties>, id: Id, parties: Parties)
    requires ProjectsEdges(before, edges) && id !in edges && KeysDone(m, before, id, EdgeKeys(parties), true)
    ensures ProjectsEdges(m, edges[id := parties])
  {
    forall o: Owner, i: Id
      ensures Listed(m, o, i) <==> PartyTo(edges[id := parties], o, i)
    {
      assert Listed(before, o, i) <==> PartyTo(edges, o, i);
    }
  }

  lemma {:induction false} EdgeDropped(m: EdgesByOwner, before: EdgesByOwner, edges: map<Id, Parties>, id: Id)
    requires ProjectsEdges(before, edges) && id in edges && KeysDone(m, before, id, EdgeKeys(edges[id]), false)
    ensures ProjectsEdges(m, edges - {id})
  {
    forall o: Owner, i: Id
      ensures Listed(m, o, i) <==> PartyTo(edges - {id}, o, i)
    {
      assert Listed(before, o, i) <==> PartyTo(edges, o, i);
    }
  }

  class State {
    const genesis: seq<Payout>
    var cursor: Cursor
    var coins: map<Id, Coin>
    var byOwner: CoinsByOwner
    var edges: map<Id, Parties>
    var edgesByOwner: EdgesByOwner

    ghost function Model(): Ledger
      reads this
    {
      Ledger(coins, edges)
    }

    // The four maps are projections of one another, and no id is both coin and edge.
    ghost predicate Valid()
      reads this
    {
      Disjoint(Model()) && ProjectsCoins(byOwner, coins) && ProjectsEdges(edgesByOwner, edges)
    }

    constructor (genesis: seq<Payout>, cursor: Cursor)
      ensures Valid() && Model() == Ledger(map[], map[]) && this.genesis == genesis && this.cursor == cursor
    {
      this.genesis, this.cursor := genesis, cursor;
      coins, byOwner, edges, edgesByOwner := map[], map[], map[], map[];
    }

    // The working copy a block is applied to.
    constructor Clone(from: State)
      requires from.Valid()
      ensures Valid() && Model() == from.Model() && genesis == from.genesis && cursor == from.cursor
    {
      genesis, cursor := from.genesis, from.cursor;
      coins, byOwner, edges, edgesByOwner := from.coins, from.byOwner, from.edges, from.edgesByOwner;
    }

    method AddCoin(id: Id, coin: Coin) returns (r: Result<(), IndexError>)
      requires Valid()
      modifies this
      ensures Valid() && cursor == old(cursor)
      ensures r.Ok? ==> InsertCoin(old(Model()), Payout(id, coin)) == Ok(Model())
      ensures r.Err? ==> InsertCoin(old(Model()), Payout(id, coin)) == Err(r.error) && Model() == old(Model())
    {
      if id in coins || id in edges {
        return Err(OutputCollision(id));
      }
      var shares := CoinHoldings(coin);
      ghost var before := byOwner;
      for n := 0 to |shares|
        invariant SharesDone(byOwner, before, shares, id, n, true)
        invariant coins == old(coins) && edges == old(edges) && edgesByOwner == old(edgesByOwner) &&
            cursor == old(cursor)
      {
        AddShare(byOwner, before, shares, id, n);
        byOwner := AddHeld(byOwner, shares[n].owner, (shares[n].kind, id), shares[n].balance);
      }
      forall o: Owner, k: (nat, Id)
        ensures Held(byOwner, o, k) == Expected(coins[id := coin], o, k)
      {
        SharesOfCoin(before, coins, id, coin, true, o, k);
      }
      coins := coins[id := coin];
      return Ok(());
    }

    // The lookups by owner never miss: the refusals inside the loop are unreachable.
    method TakeCoin(id: Id) returns (r: Result<Coin, IndexError>)
      requires Valid()
      modifies this
      ensures Valid() && cursor == old(cursor)
      ensures r.Ok? ==> RemoveCoin(old(Model()), id) == Ok(Model()) && id in old(coins) && r.value == old(coins)[id]
      ensures r.Err? ==> RemoveCoin(old(Model()), id) == Err(r.error) && Model() == old(Model())
    {
      if id !in coins {
        return Err(ObjectNotFound(id));
      }
      var coin := coins[id];
      var shares := CoinHoldings(coin);
      ghost var before := byOwner;
      for n := 0 to |shares|
        invariant SharesDone(byOwner, before, shares, id, n, false)
        invariant coins == old(coins) && edges == old(edges) && edgesByOwner == old(edgesByOwner) &&
            cursor == old(cursor)
      {
        ShareHeld(byOwner, before, coins, id, n);
        assert shares[n].owner in byOwner && (shares[n].kind, id) in byOwner[shares[n].owner];
        DropShare(byOwner, before, shares, id, n);
        byOwner := DropHeld(byOwner, shares[n].owner, (shares[n].kind, id));
      }
      forall o: Owner, k: (nat, Id)
        ensures Held(byOwner, o, k) == Expected(coins - {id}, o, k)
      {
        SharesOfCoin(before, coins, id, coin, false, o, k);
      }
      coins := coins - {id};
      return Ok(coin);
    }

    method AddEdge(id: Id, parties: Parties) returns (r: Result<(), IndexError>)
      requires Valid()
      modifies this
      ensures Valid() && cursor == old(cursor)
      ensures r.Ok? ==> InsertEdge(old(Model()), id, parties) == Ok(Model())
      ensures r.Err? ==> InsertEdge(old(Model()), id, parties) == Err(r.error) && Model() == old(Model())
    {
      if id in coins || id in edges {
        return Err(OutputCollision(id));
      }
      var left := EdgeKeys(parties);
      ghost var before := edgesByOwner;
      while left != {}
        invariant left <= EdgeKeys(parties)
        invariant KeysDone(edgesByOwner, before, id, EdgeKeys(parties) - left, true)
        invariant coins == old(coins) && edges == old(edges) && byOwner == old(byOwner) && cursor == old(cursor)
        decreases left
      {
        var key :| key in left;
        AddKey(edgesByOwner, before, id, EdgeKeys(parties) - left, key);
        edgesByOwner := edgesByOwner[key := (if key in edgesByOwner then edgesByOwner[key] else {}) + {id}];
        left := left - {key};
        assert EdgeKeys(parties) - left == EdgeKeys(parties) - (left + {key}) + {key};
      }
      EdgeAdded(edgesByOwner, before, edges, id, parties);
      edges := edges[id := parties];
      return Ok(());
    }

    // The index's own assertions hold: an active edge is in every one of its owners' sets.
    method TakeEdge(id: Id) returns (r: Result<Parties, IndexError>)
      requires Valid()
      modifies this
      ensures Valid() && cursor == old(cursor)
      ensures r.Ok? ==> RemoveEdge(old(Model()), id) == Ok(Model()) && id in old(edges) && r.value == old(edges)[id]
      ensures r.Err? ==> RemoveEdge(old(Model()), id) == Err(r.error) && Model() == old(Model())
    {
      if id !in edges {
        return if id in coins then Err(WrongObjectKind(id)) else Err(ObjectNotFound(id));
      }
      var parties := edges[id];
      var left := EdgeKeys(parties);
      ghost var before := edgesByOwner;
      while left != {}
        invariant left <= EdgeKeys(parties)
        invariant KeysDone(edgesByOwner, before, id, EdgeKeys(parties) - left, false)
        invariant coins == old(coins) && edges == old(edges) && byOwner == old(byOwner) && cursor == old(cursor)
        decreases left
      {
        var key :| key in left;
        assert PartyTo(edges, key, id);
        assert Listed(edgesByOwner, key, id);
        DropKey(edgesByOwner, before, id, EdgeKeys(parties) - left, key);
        var owned := edgesByOwner[key] - {id};
        edgesByOwner := if owned == {} then edgesByOwner - {key} else edgesByOwner[key := owned];
        left := left - {key};
        assert EdgeKeys(parties) - left == EdgeKeys(parties) - (left + {key}) + {key};
      }
      EdgeDropped(edgesByOwner, before, edges, id);
      edges := edges - {id};
      return Ok(parties);
    }

    method TakeCoins(ids: seq<Id>) returns (r: Result<(), IndexError>)
      requires Valid()
      modifies this
      ensures Valid() && cursor == old(cursor)
      ensures r.Ok? ==> RemoveCoins(old(Model()), ids) == Ok(Model())
      ensures r.Err? ==> RemoveCoins(old(Model()), ids) == Err(r.error)
    {
      assert ids[..0] == [];
      for i := 0 to |ids|
        invariant Valid() && cursor == old(cursor)
        invariant RemoveCoins(old(Model()), ids[..i]) == Ok(Model())
      {
        ghost var more := ids[..i + 1];
        assert more[..|more| - 1] == ids[..i] && more[|more| - 1] == ids[i];
        var step := TakeCoin(ids[i]);
        if step.Err? {
          RemoveFailsOn(old(Model()), ids, i + 1);
          return Err(step.error);
        }
      }
      assert ids[..|ids|] == ids;
      return Ok(());
    }

    method AddCoins(outs: seq<Payout>) returns (r: Result<(), IndexError>)
      requires Valid()
      modifies this
      ensures Valid() && cursor == old(cursor)
      ensures r.Ok? ==> InsertCoins(old(Model()), outs) == Ok(Model())
      ensures r.Err? ==> InsertCoins(old(Model()), outs) == Err(r.error)
    {
      assert outs[..0] == [];
      for i := 0 to |outs|
        invariant Valid() && cursor == old(cursor)
        invariant InsertCoins(old(Model()), outs[..i]) == Ok(Model())
      {
        ghost var more := outs[..i + 1];
        assert more[..|more| - 1] == outs[..i] && more[|more| - 1] == outs[i];
        var step := AddCoin(outs[i].id, outs[i].coin);
        if step.Err? {
          InsertFailsOn(old(Model()), outs, i + 1);
          return Err(step.error);
        }
      }
      assert outs[..|outs|] == outs;
      return Ok(());
    }

    method ApplyKernel(tx: Tx) returns (r: Result<(), IndexError>)
      requires Valid()
      modifies this
      ensures Valid() && cursor == old(cursor)
      ensures r.Ok? ==> ApplyTx(old(Model()), tx) == Ok(Model())
      ensures r.Err? ==> ApplyTx(old(Model()), tx) == Err(r.error)
    {
      match tx
      case Open(edge, funding, parties) =>
        if edge in coins || edge in edges {
          return Err(OutputCollision(edge));
        }
        r := TakeCoins(funding);
        if r.Ok? {
          r := AddEdge(edge, parties);
        }
      case Close(input, outputs) =>
        var closed := TakeEdge(input);
        if closed.Err? {
          return Err(closed.error);
        }
        r := AddCoins(outputs);
      case Reshape(inputs, outputs) =>
        r := TakeCoins(inputs);
        if r.Ok? {
          r := AddCoins(outputs);
        }
      case Move =>
        r := Ok(());
    }

    method ApplyBlockTxs(txs: seq<Tx>) returns (r: Result<(), IndexError>)
      requires Valid()
      modifies this
      ensures Valid() && cursor == old(cursor)
      ensures r.Ok? ==> ApplyTxs(old(Model()), txs) == Ok(Model())
      ensures r.Err? ==> ApplyTxs(old(Model()), txs) == Err(r.error)
    {
      assert txs[..0] == [];
      for i := 0 to |txs|
        invariant Valid() && cursor == old(cursor)
        invariant ApplyTxs(old(Model()), txs[..i]) == Ok(Model())
      {
        ghost var more := txs[..i + 1];
        assert more[..|more| - 1] == txs[..i] && more[|more| - 1] == txs[i];
        var step := ApplyKernel(txs[i]);
        if step.Err? {
          TxFailsOn(old(Model()), txs, i + 1);
          return Err(step.error);
        }
      }
      assert txs[..|txs|] == txs;
      return Ok(());
    }

    // A block is applied to a copy and installed whole, or not at all.
    method ApplyFinalized(block: Block) returns (r: Result<ApplyOutcome, IndexError>)
      requires Valid()
      modifies this
      ensures Valid()
      ensures (r, Index(cursor, Model())) == Deliver(genesis, old(Index(cursor, Model())), block)
    {
      var payload := OfBlock(block);
      if block.height == cursor.height {
        return if payload == cursor.payload then Ok(Duplicate) else Err(ConflictingHeight(block.height));
      }
      if block.height < cursor.height {
        return Ok(Duplicate);
      }
      if block.height != cursor.height + 1 {
        return Err(HeightGap(cursor.height, block.height));
      }
      if block.parent != cursor.payload {
        return Err(ParentMismatch(block.height));
      }
      var next := new State.Clone(this);
      if next.cursor.height == 0 {
        var seeded := next.AddCoins(Seeded(genesis));
        if seeded.Err? {
          return Err(seeded.error);
        }
      }
      var applied := next.ApplyBlockTxs(block.txs);
      if applied.Err? {
        return Err(applied.error);
      }
      cursor := Cursor(block.height, payload, block.stateRoot);
      coins, byOwner, edges, edgesByOwner := next.coins, next.byOwner, next.edges, next.edgesByOwner;
      return Ok(Applied);
    }
  }

  lemma {:induction false} RemoveFailsOn(l: Ledger, ids: seq<Id>, i: nat)
    requires i <= |ids| && RemoveCoins(l, ids[..i]).Err?
    ensures RemoveCoins(l, ids) == RemoveCoins(l, ids[..i])
  {
    if i == |ids| {
      assert ids[..i] == ids;
    } else {
      var n := |ids| - 1;
      assert ids[..n][..i] == ids[..i];
      RemoveFailsOn(l, ids[..n], i);
    }
  }

  lemma {:induction false} InsertFailsOn(l: Ledger, outs: seq<Payout>, i: nat)
    requires i <= |outs| && InsertCoins(l, outs[..i]).Err?
    ensures InsertCoins(l, outs) == InsertCoins(l, outs[..i])
  {
    if i == |outs| {
      assert outs[..i] == outs;
    } else {
      var n := |outs| - 1;
      assert outs[..n][..i] == outs[..i];
      InsertFailsOn(l, outs[..n], i);
    }
  }

  lemma {:induction false} TxFailsOn(l: Ledger, txs: seq<Tx>, i: nat)
    requires i <= |txs| && ApplyTxs(l, txs[..i]).Err?
    ensures ApplyTxs(l, txs) == ApplyTxs(l, txs[..i])
  {
    if i == |txs| {
      assert txs[..i] == txs;
    } else {
      var n := |txs| - 1;
      assert txs[..n][..i] == txs[..i];
      TxFailsOn(l, txs[..n], i);
    }
  }
}
