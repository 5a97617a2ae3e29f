/**
 What a finalized transaction does to the coins and edges of the owner index, said of the
 two maps, and what a replayed chain leaves of every coin and edge.
 Source: crates/chain/src/owner_index.rs.
 */
module IndexLedger {
  import opened Wrappers
  import opened OwnerIndex

  ghost predicate Distinct(ids: seq<Id>) {
    forall i, j :: 0 <= i < j < |ids| ==> ids[i] != ids[j]
  }

  ghost function Members(ids: seq<Id>): set<Id> {
    set id | id in ids
  }

  ghost function OutputIds(outs: seq<Payout>): seq<Id> {
    seq(|outs|, i requires 0 <= i < |outs| => outs[i].id)
  }

  // The coins that outputs issue, by id.
  ghost function Issued(outs: seq<Payout>): map<Id, Coin> {
    if outs == [] then map[] else Issued(outs[..|outs| - 1])[outs[|outs| - 1].id := outs[|outs| - 1].coin]
  }

  lemma {:induction false} DistinctSnoc(ids: seq<Id>, id: Id)
    ensures Distinct(ids + [id]) <==> Distinct(ids) && id !in ids
    ensures Members(ids + [id]) == Members(ids) + {id}
  {
    var all := ids + [id];
    if Distinct(all) {
      forall i, j | 0 <= i < j < |ids| ensures ids[i] != ids[j] {
        assert all[i] != all[j];
      }
      forall i | 0 <= i < |ids| ensures ids[i] != id {
        assert all[i] != all[|ids|];
      }
    }
  }

  // Each output's coin is under its id, and no other id is issued.
  lemma {:induction false} IssuedExact(outs: seq<Payout>)
    ensures Issued(outs).Keys == Members(OutputIds(outs))
    ensures Distinct(OutputIds(outs)) ==>
              forall i :: 0 <= i < |outs| ==> Lookup(Issued(outs), outs[i].id) == Some(outs[i].coin)
  {
    if outs != [] {
      var front, last := outs[..|outs| - 1], outs[|outs| - 1];
      IssuedExact(front);
      assert OutputIds(outs) == OutputIds(front) + [last.id];
      DistinctSnoc(OutputIds(front), last.id);
      if Distinct(OutputIds(outs)) {
        forall i | 0 <= i < |outs| ensures Lookup(Issued(outs), outs[i].id) == Some(outs[i].coin) {
          if i < |front| {
            assert OutputIds(front)[i] == outs[i].id;
            assert Lookup(Issued(front), front[i].id) == Some(front[i].coin);
          }
        }
      }
    }
  }

  // Coins are taken exactly when they are all there and none is named twice.
  lemma {:induction false} RemoveExact(l: Ledger, ids: seq<Id>)
    ensures RemoveCoins(l, ids).Ok? <==> Distinct(ids) && Members(ids) <= l.coins.Keys
    ensures RemoveCoins(l, ids).Ok? ==> RemoveCoins(l, ids).value == Ledger(l.coins - Members(ids), l.edges)
    decreases |ids|
  {
    if ids == [] {
      assert l.coins - Members(ids) == l.coins;
    } else {
      var front, last := ids[..|ids| - 1], ids[|ids| - 1];
      assert ids == front + [last];
      RemoveExact(l, front);
      DistinctSnoc(front, last);
      assert l.coins - Members(front) - {last} == l.coins - (Members(front) + {last});
    }
  }

  // Coins are issued exactly when their ids are new and none is issued twice.
  lemma {:induction false} InsertExact(l: Ledger, outs: seq<Payout>)
    ensures var ids := OutputIds(outs);
            InsertCoins(l, outs).Ok? <==> Distinct(ids) && forall id :: id in ids ==> !Exists(l, id)
    ensures InsertCoins(l, outs).Ok? ==> InsertCoins(l, outs).value == Ledger(l.coins + Issued(outs), l.edges)
    decreases |outs|
  {
    if outs == [] {
      assert l.coins + map[] == l.coins;
    } else {
      var front, last := outs[..|outs| - 1], outs[|outs| - 1];
      InsertExact(l, front);
      assert OutputIds(outs) == OutputIds(front) + [last.id];
      DistinctSnoc(OutputIds(front), last.id);
      IssuedExact(front);
      assert last.id in Members(OutputIds(front)) <==> last.id in OutputIds(front);
      assert l.coins + Issued(outs) == (l.coins + Issued(front))[last.id := last.coin];
    }
  }

  // ---------- Where a transaction is refused ----------

  lemma {:induction false} RemoveRefused(l: Ledger, ids: seq<Id>) returns (k: nat)
    requires RemoveCoins(l, ids).Err?
    ensures k < |ids| && RemoveCoins(l, ids[..k]).Ok? && (ids[k] !in l.coins || ids[k] in ids[..k])
    ensures RemoveCoins(l, ids) == Err(ObjectNotFound(ids[k]))
    decreases |ids|
  {
    var front := ids[..|ids| - 1];
    if RemoveCoins(l, front).Ok? {
      k := |ids| - 1;
      RemoveExact(l, front);
    } else {
      k := RemoveRefused(l, front);
      assert front[..k] == ids[..k];
    }
  }

  lemma {:induction false} InsertRefused(l: Ledger, outs: seq<Payout>) returns (k: nat)
    requires InsertCoins(l, outs).Err?
    ensures k < |outs| && InsertCoins(l, outs[..k]).Ok?
    ensures Exists(l, outs[k].id) || outs[k].id in OutputIds(outs[..k])
    ensures InsertCoins(l, outs) == Err(OutputCollision(outs[k].id))
    decreases |outs|
  {
    var front := outs[..|outs| - 1];
    if InsertCoins(l, front).Ok? {
      k := |outs| - 1;
      InsertExact(l, front);
      IssuedExact(front);
      assert outs[k].id in Members(OutputIds(front)) ==> outs[k].id in OutputIds(front);
    } else {
      k := InsertRefused(l, front);
      assert front[..k] == outs[..k];
    }
  }

  // ---------- Each transaction ----------

  // Opening: the funding coins are gone and the edge is there, and nothing else changed.
  lemma {:induction false} OpenExact(l: Ledger, edge: Id, funding: seq<Id>, parties: Parties)
    ensures ApplyTx(l, Open(edge, funding, parties)).Ok? <==>
              !Exists(l, edge) && Distinct(funding) && Members(funding) <= l.coins.Keys
    ensures ApplyTx(l, Open(edge, funding, parties)).Ok? ==>
              ApplyTx(l, Open(edge, funding, parties)).value ==
                Ledger(l.coins - Members(funding), l.edges[edge := parties])
    ensures Exists(l, edge) ==> ApplyTx(l, Open(edge, funding, parties)) == Err(OutputCollision(edge))
  {
    RemoveExact(l, funding);
  }

  // Closing: the edge is gone, every payout is a coin under its own id, and no other coin or
  // edge changed. A payout may take the id of the edge it closes.
  lemma {:induction false} CloseExact(l: Ledger, input: Id, outputs: seq<Payout>)
    ensures var ids := OutputIds(outputs);
            ApplyTx(l, Close(input, outputs)).Ok? <==>
              && input in l.edges && Distinct(ids)
              && forall id :: id in ids ==> id !in l.coins && (id in l.edges ==> id == input)
    ensures ApplyTx(l, Close(input, outputs)).Ok? ==>
              ApplyTx(l, Close(input, outputs)).value == Ledger(l.coins + Issued(outputs), l.edges - {input})
    ensures input !in l.edges ==>
              ApplyTx(l, Close(input, outputs)) ==
                Err(if input in l.coins then WrongObjectKind(input) else ObjectNotFound(input))
  {
    InsertExact(l.(edges := l.edges - {input}), outputs);
  }

  // Reshaping: the inputs are gone, the outputs are there, and edges stay. An output may take
  // the id of an input.
  lemma {:induction false} ReshapeExact(l: Ledger, inputs: seq<Id>, outputs: seq<Payout>)
    ensures var ids := OutputIds(outputs);
            ApplyTx(l, Reshape(inputs, outputs)).Ok? <==>
              && Distinct(inputs) && Members(inputs) <= l.coins.Keys && Distinct(ids)
              && forall id :: id in ids ==> id !in l.edges && (id in l.coins ==> id in inputs)
    ensures ApplyTx(l, Reshape(inputs, outputs)).Ok? ==>
              ApplyTx(l, Reshape(inputs, outputs)).value ==
                Ledger(l.coins - Members(inputs) + Issued(outputs), l.edges)
  {
    RemoveExact(l, inputs);
    InsertExact(Ledger(l.coins - Members(inputs), l.edges), outputs);
  }

  lemma {:induction false} MoveExact(l: Ledger)
    ensures ApplyTx(l, Move) == Ok(l)
  {
  }

  // ---------- The history of one coin and one edge ----------

  ghost function Inputs(tx: Tx): seq<Id> {
    match tx
    case Open(_, funding, _) => funding
    case Close(_, _) => []
    case Reshape(inputs, _) => inputs
    case Move => []
  }

  ghost function Outputs(tx: Tx): seq<Payout> {
    match tx
    case Open(_, _, _) => []
    case Close(_, outputs) => outputs
    case Reshape(_, outputs) => outputs
    case Move => []
  }

  // The last transaction that names a coin decides it: issued with that content, or spent.
  ghost function CoinAfter(start: Ledger, txs: seq<Tx>, id: Id): Option<Coin> {
    if txs == [] then Lookup(start.coins, id)
    else
      var tx := txs[|txs| - 1];
      if id in Issued(Outputs(tx)) then Some(Issued(Outputs(tx))[id])
      else if id in Inputs(tx) then None
      else CoinAfter(start, txs[..|txs| - 1], id)
  }

  ghost function EdgeAfter(start: Ledger, txs: seq<Tx>, id: Id): Option<Parties> {
    if txs == [] then Lookup(start.edges, id)
    else
      var tx := txs[|txs| - 1];
      if tx.Open? && tx.edge == id then Some(tx.parties)
      else if tx.Close? && tx.input == id then None
      else EdgeAfter(start, txs[..|txs| - 1], id)
  }

  lemma {:induction false} TxEffect(l: Ledger, tx: Tx, id: Id)
    requires ApplyTx(l, tx).Ok?
    ensures var now := ApplyTx(l, tx).value;
            && Lookup(now.coins, id) == (if id in Issued(Outputs(tx)) then Some(Issued(Outputs(tx))[id])
                                         else if id in Inputs(tx) then None
                                         else Lookup(l.coins, id))
            && Lookup(now.edges, id) == (if tx.Open? && tx.edge == id then Some(tx.parties)
                                         else if tx.Close? && tx.input == id then None
                                         else Lookup(l.edges, id))
  {
    match tx
    case Open(edge, funding, parties) =>
      OpenExact(l, edge, funding, parties);
      assert id in Members(funding) <==> id in funding;
    case Close(input, outputs) =>
      CloseExact(l, input, outputs);
    case Reshape(inputs, outputs) =>
      ReshapeExact(l, inputs, outputs);
      assert id in Members(inputs) <==> id in inputs;
    case Move =>
  }

  lemma {:induction false} TxsEffect(l: Ledger, txs: seq<Tx>, id: Id)
    requires ApplyTxs(l, txs).Ok?
    ensures Lookup(ApplyTxs(l, txs).value.coins, id) == CoinAfter(l, txs, id)
    ensures Lookup(ApplyTxs(l, txs).value.edges, id) == EdgeAfter(l, txs, id)
    decreases |txs|
  {
    if txs != [] {
      var front := txs[..|txs| - 1];
      TxsEffect(l, front, id);
      TxEffect(ApplyTxs(l, front).value, txs[|txs| - 1], id);
    }
  }

  // ---------- A replayed chain ----------

  // Everything a chain does from height 0, in order: the first 65536 genesis allocations are
  // issued with the first block, before its transactions.
  ghost function History(genesis: seq<Payout>, chain: seq<Block>): seq<Tx> {
    if chain == [] then []
    else
      (if |chain| == 1 then [Reshape([], if |genesis| <= 65536 then genesis else genesis[..65536])]
       else History(genesis, chain[..|chain| - 1]))
      + chain[|chain| - 1].txs
  }

  lemma {:induction false} TxsAppend(l: Ledger, a: seq<Tx>, b: seq<Tx>)
    requires ApplyTxs(l, a).Ok?
    ensures ApplyTxs(l, a + b) == ApplyTxs(ApplyTxs(l, a).value, b)
    decreases |b|
  {
    if b == [] {
      assert a + b == a;
    } else {
      assert (a + b)[..|a + b| - 1] == a + b[..|b| - 1];
      TxsAppend(l, a, b[..|b| - 1]);
    }
  }

  lemma {:induction false} SeedingTx(l: Ledger, genesis: seq<Payout>)
    ensures ApplyTxs(l, [Reshape([], Seeded(genesis))]) == InsertCoins(l, Seeded(genesis))
  {
    var txs := [Reshape([], Seeded(genesis))];
    assert txs[..0] == [];
    assert ApplyTxs(l, txs[..0]) == Ok(l) && RemoveCoins(l, []) == Ok(l);
  }

  lemma {:induction false} ReplayCursor(genesis: seq<Payout>, s: Index, chain: seq<Block>)
    requires Linked(s.cursor, chain) && Replay(genesis, s, chain).Some?
    ensures var out := Replay(genesis, s, chain).value;
            out.cursor.height == s.cursor.height + |chain| && out.cursor.payload == Tip(s.cursor.payload, chain)
  {
  }

  lemma {:induction false} ReplayHistory(genesis: seq<Payout>, s: Index, chain: seq<Block>)
    requires s.cursor.height == 0 && Linked(s.cursor, chain) && Replay(genesis, s, chain).Some?
    ensures ApplyTxs(s.ledger, History(genesis, chain)) == Ok(Replay(genesis, s, chain).value.ledger)
    decreases |chain|
  {
    if chain != [] {
      var front, b := chain[..|chain| - 1], chain[|chain| - 1];
      if front == [] {
        SeedingTx(s.ledger, genesis);
        TxsAppend(s.ledger, [Reshape([], Seeded(genesis))], b.txs);
      } else {
        ReplayHistory(genesis, s, front);
        ReplayCursor(genesis, s, front);
        TxsAppend(s.ledger, History(genesis, front), b.txs);
      }
    }
  }

  // Every coin and every edge of the index, whatever was delivered and in which order, is
  // what the last transaction of the applied chain that names it made of it.
  lemma {:induction false} IndexExact(genesis: seq<Payout>, s: Index, ds: seq<Block>, id: Id)
    requires s.cursor.height == 0
    ensures var out, txs := Run(genesis, s, ds).ledger, History(genesis, AppliedChain(genesis, s, ds));
            && Lookup(out.coins, id) == CoinAfter(s.ledger, txs, id)
            && Lookup(out.edges, id) == EdgeAfter(s.ledger, txs, id)
  {
    var chain := AppliedChain(genesis, s, ds);
    RunIsOneChain(genesis, s, ds);
    ReplayHistory(genesis, s, chain);
    TxsEffect(s.ledger, History(genesis, chain), id);
  }

  // ---------- What is applied ----------

  // A linked chain whose transactions apply is applied block by block, and whole.
  lemma {:induction false} ChainApplied(genesis: seq<Payout>, s: Index, chain: seq<Block>)
    requires Linked(s.cursor, chain) && Replay(genesis, s, chain).Some?
    ensures AppliedChain(genesis, s, chain) == chain
    ensures Run(genesis, s, chain) == Replay(genesis, s, chain).value
    decreases |chain|
  {
    if chain != [] {
      var front, b := chain[..|chain| - 1], chain[|chain| - 1];
      ChainApplied(genesis, s, front);
      ReplayCursor(genesis, s, front);
      assert front + [b] == chain;
    }
  }

  // Against an index that stands at the end of a chain: its blocks are repeats, another block
  // at the last height conflicts, later heights leave a gap, and the next height needs the tip
  // as its parent.
  lemma {:induction false} DeliveryVerdict(genesis: seq<Payout>, s: Index, chain: seq<Block>, b: Block)
    requires Linked(s.cursor, chain) && chain != [] && Replay(genesis, s, chain).Some?
    ensures var r, top := Deliver(genesis, Run(genesis, s, chain), b).0, s.cursor.height + |chain|;
            && (b in chain ==> r == Ok(Duplicate))
            && (b.height == top && b != chain[|chain| - 1] ==> r == Err(ConflictingHeight(top)))
            && (b.height > top + 1 ==> r == Err(HeightGap(top, b.height)))
            && (b.height == top + 1 && b.parent != OfBlock(chain[|chain| - 1]) ==> r == Err(ParentMismatch(b.height)))
            && (r == Ok(Applied) <==> Linked(s.cursor, chain + [b]) && Replay(genesis, s, chain + [b]).Some?)
  {
    ChainApplied(genesis, s, chain);
    ReplayCursor(genesis, s, chain);
    assert (chain + [b])[..|chain|] == chain;
    if b in chain {
      var i :| 0 <= i < |chain| && chain[i] == b;
      LinkedHeight(s.cursor, chain, i);
    }
  }

  lemma {:induction false} LinkedHeight(start: Cursor, chain: seq<Block>, i: nat)
    requires Linked(start, chain) && i < |chain|
    ensures chain[i].height == start.height + i + 1
    decreases |chain|
  {
    if i < |chain| - 1 {
      LinkedHeight(start, chain[..|chain| - 1], i);
    }
  }

  // An edge is filed under each of the six keys its parties may name, and under no other.
  lemma {:induction false} EdgeKeysExact(e: Parties, key: Owner)
    ensures key in EdgeKeys(e) <==>
              exists p: Party :: (p == e.maker || p == e.taker)
                && (key == p.owner || key == p.signer || p.payoutDelegate == Some(key))
  {
    if key in EdgeKeys(e) {
      var p := if key in PartyKeys(e.maker) then e.maker else e.taker;
      assert key == p.owner || key == p.signer || p.payoutDelegate == Some(key);
    }
  }
}
