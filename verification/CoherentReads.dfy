/**
 Coherent reads: a node commits a finalized block to its database, then publishes that
 block's cursor, while readers under a guard name the block whose state they are reading.
 The node is a machine over these steps. It may restart at any moment; it then restores
 its cursor from the archive before it serves any reader.
 Source: crates/chain/src/rpc.rs, app.rs and execution/pipeline.rs.
 */
module CoherentReads {
  type ReaderId = nat

  // A block and the three commitments that tie it to the database it leaves behind.
  datatype Block = Block(payload: nat, stateRoot: nat, ownerRoot: nat, syncTarget: nat)

  datatype Cursor = Cursor(height: nat, payload: nat, stateRoot: nat)

  // Replaying: after a restart, notifications for blocks from this height on still trail
  // the database.
  datatype Phase = Replaying(next: nat) | Idle | Committed | Published

  datatype Service = Restoring | Serving | Refused

  // Failed: told that the state is not a finalized block. Unproved: the finalized block is
  // there, but the archive has no finality evidence for it yet.
  datatype Progress = Guarded | Looking(cursor: Cursor) | Read(cursor: Cursor) | Unproved | Failed

  // The archive stores the heights from `stored` to `top` and serves those from `floor`.
  datatype Node = Node(
    database: nat,
    cursor: Cursor,
    phase: Phase,
    service: Service,
    stored: nat,
    floor: nat,
    top: nat,
    readers: map<ReaderId, Progress>)

  datatype Step =
    | Report
    | Commit
    | Publish
    | Prune(retain: nat)
    | Return
    | Restart(next: nat)
    | Replay
    | Restore(processed: nat, retain: nat)
    | Acquire(id: ReaderId)
    | Sample(id: ReaderId)
    | Lookup(id: ReaderId, evidence: bool)
    | Release(id: ReaderId)

  function CursorAt(chain: seq<Block>, h: nat): Cursor
    requires h < |chain|
  {
    Cursor(h, chain[h].payload, chain[h].stateRoot)
  }

  function Start(chain: seq<Block>): Node
    requires chain != []
  {
    Node(0, CursorAt(chain, 0), Idle, Restoring, 0, 0, 0, map[])
  }

  // App::finalized for the block at h: it publishes only if the database is in that
  // block's state.
  function Finalized(chain: seq<Block>, n: Node, h: nat): Cursor
    requires n.database < |chain| && h < |chain|
  {
    if chain[n.database].stateRoot == chain[h].stateRoot then CursorAt(chain, h) else n.cursor
  }

  // ---------- Restoring ----------

  function Max(a: nat, b: nat): nat {
    if a < b then b else a
  }

  function Minus(a: nat, b: nat): nat {
    if a < b then 0 else a - b
  }

  // The archived block at h is the one the database holds, by all three commitments.
  predicate Fits(chain: seq<Block>, n: Node, h: nat)
    requires n.database < |chain|
  {
    && (h == 0 || n.stored <= h <= n.top) && h < |chain|
    && chain[h].stateRoot == chain[n.database].stateRoot
    && chain[h].ownerRoot == chain[n.database].ownerRoot
    && chain[h].syncTarget == chain[n.database].syncTarget
  }

  // The cursor is restored to the first fitting candidate, or the node refuses to start.
  // The retention window of an earlier run is then applied.
  function Restored(chain: seq<Block>, n: Node, processed: nat, retain: nat): Node
    requires n.database < |chain|
  {
    var height := Max(processed, n.cursor.height);
    if Fits(chain, n, height + 1) then Serve(chain, n, height + 1, retain)
    else if Fits(chain, n, height) then Serve(chain, n, height, retain)
    else n.(service := Refused)
  }

  function Serve(chain: seq<Block>, n: Node, h: nat, retain: nat): Node
    requires h < |chain|
  {
    var m := n.(cursor := CursorAt(chain, h), service := Serving);
    if retain == 0 then m
    else m.(floor := Max(m.floor, Minus(h, retain - 1)), stored := Max(m.stored, Minus(h, Max(retain, 2) - 1)))
  }

  // ---------- Reading ----------

  // The reader samples the cursor under its guard.
  function SampleCursor(chain: seq<Block>, n: Node): Progress
    requires n.database < |chain|
  {
    if chain[n.database].stateRoot == n.cursor.stateRoot then Read(n.cursor) else Looking(n.cursor)
  }

  // The reader asks the archive for the block after its cursor. The archive answers only
  // with finality evidence: `evidence` says whether its walk to a certified descendant
  // succeeds, which it does exactly when some stretch of the archive is provable (Provable
  // and FinalizedBlockAt in Finality).
  function LookupNext(chain: seq<Block>, n: Node, c: Cursor, evidence: bool): Progress
    requires n.database < |chain|
  {
    var h := c.height + 1;
    if !(Max(n.floor, n.stored) <= h <= n.top) || h >= |chain| then Failed
    else if !evidence then Unproved
    else if chain[h].stateRoot == chain[n.database].stateRoot then Read(CursorAt(chain, h))
    else Failed
  }

  // ---------- The machine ----------

  // A step that is not enabled leaves the node as it is. A restart keeps what is durable:
  // the database and the archive. At most one finalized application precedes the archive's
  // durable acknowledgement, so the processed height a restore sees is the database's or
  // the one before it.
  function Next(chain: seq<Block>, n: Node, step: Step): Node
    requires n.database < |chain|
  {
    match step
    case Report => if n.top + 1 < |chain| then n.(top := n.top + 1) else n
    case Commit =>
      if n.phase.Idle? && n.readers == map[] && n.database < n.top && n.database + 1 < |chain|
      then n.(database := n.database + 1, phase := Committed) else n
    case Publish =>
      if n.phase.Committed? then n.(cursor := Finalized(chain, n, n.database), phase := Published) else n
    case Prune(retain) =>
      if n.phase.Published? && retain > 0
      then n.(floor := Max(n.floor, Minus(n.database, retain - 1)),
              stored := Max(n.stored, Minus(n.database, Max(retain, 2) - 1)))
      else n
    case Return => if n.phase.Published? then n.(phase := Idle) else n
    case Restart(next) =>
      n.(cursor := CursorAt(chain, 0), service := Restoring, readers := map[], floor := 0,
         phase := if next <= n.database then Replaying(next) else Idle)
    case Replay =>
      if n.phase.Replaying? && n.phase.next <= n.database then
        n.(cursor := Finalized(chain, n, n.phase.next),
           phase := if n.phase.next == n.database then Idle else Replaying(n.phase.next + 1))
      else n
    case Restore(processed, retain) =>
      if n.service.Restoring? && processed <= n.database <= processed + 1
      then Restored(chain, n, processed, retain) else n
    case Acquire(id) =>
      if n.service.Serving? && id !in n.readers then n.(readers := n.readers[id := Guarded]) else n
    case Sample(id) =>
      if id in n.readers && n.readers[id].Guarded?
      then n.(readers := n.readers[id := SampleCursor(chain, n)]) else n
    case Lookup(id, evidence) =>
      if id in n.readers && n.readers[id].Looking?
      then n.(readers := n.readers[id := LookupNext(chain, n, n.readers[id].cursor, evidence)]) else n
    case Release(id) => n.(readers := n.readers - {id})
  }

  // ---------- Invariants ----------

  ghost predicate IsCursor(chain: seq<Block>, c: Cursor) {
    c.height < |chain| && c == CursorAt(chain, c.height)
  }

  ghost predicate ReaderOk(chain: seq<Block>, n: Node, p: Progress)
    requires n.database < |chain|
  {
    match p
    case Guarded => true
    case Unproved => true
    case Looking(c) => IsCursor(chain, c) && c.height + 1 == n.database && n.floor <= n.database
    case Read(c) => IsCursor(chain, c) && c.height <= n.top && c.stateRoot == chain[n.database].stateRoot
    case Failed => false
  }

  // A serving node's cursor has the database's state, or is its parent while a commit
  // waits to be published.
  ghost predicate CaughtUp(chain: seq<Block>, n: Node)
    requires n.database < |chain|
  {
    || n.cursor.stateRoot == chain[n.database].stateRoot
    || (n.phase.Committed? && n.cursor.height + 1 == n.database && n.floor <= n.database)
  }

  // Between blocks the cursor is the database's block, or the next one in the same state.
  ghost predicate Settled(n: Node) {
    n.phase.Idle? || n.phase.Published? ==> n.cursor.height == n.database || n.cursor.height == n.database + 1
  }

  ghost predicate Inv(chain: seq<Block>, n: Node) {
    && n.database < |chain| && n.database <= n.top < |chain|
    && n.stored <= n.database && n.floor <= n.database + 1
    && IsCursor(chain, n.cursor) && n.cursor.height <= n.top && n.cursor.height <= n.database + 1
    && !n.service.Refused?
    && (n.service.Restoring? ==> n.readers == map[] && n.cursor.height <= n.database)
    && (n.service.Serving? ==> CaughtUp(chain, n) && Settled(n))
    && (n.phase.Replaying? ==> n.phase.next <= n.database)
    && forall id :: id in n.readers ==> ReaderOk(chain, n, n.readers[id])
  }

  // ---------- What every step keeps ----------

  lemma {:induction false} RestoredServes(chain: seq<Block>, n: Node, processed: nat, retain: nat)
    requires Inv(chain, n) && n.service.Restoring? && processed <= n.database <= processed + 1
    ensures Inv(chain, Restored(chain, n, processed, retain))
    ensures Restored(chain, n, processed, retain).service.Serving?
  {
    var height := Max(processed, n.cursor.height);
    assert Fits(chain, n, n.database);
    assert height == n.database || height + 1 == n.database;
  }

  lemma {:induction false} ReadersKept(chain: seq<Block>, n: Node, step: Step)
    requires Inv(chain, n)
    ensures var m := Next(chain, n, step);
            m.database < |chain| && forall id :: id in m.readers ==> ReaderOk(chain, m, m.readers[id])
  {
    var m := Next(chain, n, step);
    forall id | id in m.readers ensures ReaderOk(chain, m, m.readers[id]) {
      if id in n.readers {
        assert ReaderOk(chain, n, n.readers[id]);
      }
    }
  }

  lemma {:induction false} StepKeeps(chain: seq<Block>, n: Node, step: Step)
    requires Inv(chain, n)
    ensures Inv(chain, Next(chain, n, step))
  {
    ReadersKept(chain, n, step);
    if step.Restore? && n.service.Restoring? && step.processed <= n.database <= step.processed + 1 {
      RestoredServes(chain, n, step.processed, step.retain);
    }
  }

  ghost function Run(chain: seq<Block>, steps: seq<Step>): Node
    requires chain != []
    ensures Inv(chain, Run(chain, steps))
    decreases |steps|
  {
    if steps == [] then Start(chain)
    else
      var n := Run(chain, steps[..|steps| - 1]);
      StepKeeps(chain, n, steps[|steps| - 1]);
      Next(chain, n, steps[|steps| - 1])
  }

  // ---------- Over every run ----------

  // Safety: whatever the interleaving and however often the node restarts, a read names a
  // block of the finalized chain whose state root is the root of the database under the
  // guard.
  lemma {:induction false} ReadsAreCoherent(chain: seq<Block>, steps: seq<Step>, id: ReaderId)
    requires chain != []
    ensures var n := Run(chain, steps);
            id in n.readers && n.readers[id].Read? ==>
              var c := n.readers[id].cursor;
              && c.height <= n.top < |chain| && c == CursorAt(chain, c.height)
              && c.stateRoot == chain[n.database].stateRoot
  {
    var n := Run(chain, steps);
    if id in n.readers {
      assert ReaderOk(chain, n, n.readers[id]);
    }
  }

  // Availability: no reader of any run, restarts included, is told that the state is not a
  // finalized block.
  lemma {:induction false} NeverNotFinalized(chain: seq<Block>, steps: seq<Step>, id: ReaderId)
    requires chain != []
    ensures var n := Run(chain, steps); id in n.readers ==> !n.readers[id].Failed?
  {
    var n := Run(chain, steps);
    if id in n.readers {
      assert ReaderOk(chain, n, n.readers[id]);
    }
  }

  // No run, restarts and pruning included, ends with a node that refuses to start.
  lemma {:induction false} NeverRefused(chain: seq<Block>, steps: seq<Step>)
    requires chain != []
    ensures !Run(chain, steps).service.Refused?
  {
  }

  lemma {:induction false} Extend(chain: seq<Block>, steps: seq<Step>, step: Step)
    requires chain != []
    ensures Run(chain, steps + [step]) == Next(chain, Run(chain, steps), step)
  {
    assert (steps + [step])[..|steps|] == steps;
  }

  // Neither a restart nor the end of this reader's guard.
  ghost predicate Guards(steps: seq<Step>, id: ReaderId) {
    forall i :: 0 <= i < |steps| ==> !steps[i].Restart? && steps[i] != Release(id)
  }

  lemma {:induction false} GuardStep(chain: seq<Block>, n: Node, step: Step, id: ReaderId)
    requires Inv(chain, n) && id in n.readers && !step.Restart? && step != Release(id)
    ensures var m := Next(chain, n, step);
            m.database == n.database && id in m.readers && (n.readers[id].Read? ==> m.readers[id] == n.readers[id])
  {
  }

  // A guard stands still: however many steps of everyone else follow, short of a restart,
  // the database under it is the same, and what the reader has read stays the block of that
  // very state.
  lemma {:induction false} GuardHolds(chain: seq<Block>, steps: seq<Step>, more: seq<Step>, id: ReaderId)
    requires chain != [] && id in Run(chain, steps).readers && Guards(more, id)
    ensures var n, m := Run(chain, steps), Run(chain, steps + more);
            && m.database == n.database && id in m.readers
            && (n.readers[id].Read? ==>
                  && m.readers[id] == n.readers[id]
                  && m.readers[id].cursor.stateRoot == chain[m.database].stateRoot)
    decreases |more|
  {
    if more == [] {
      assert steps + more == steps;
      ReadsAreCoherent(chain, steps, id);
    } else {
      var front, step := more[..|more| - 1], more[|more| - 1];
      assert steps + more == steps + front + [step];
      GuardHolds(chain, steps, front, id);
      Extend(chain, steps + front, step);
      GuardStep(chain, Run(chain, steps + front), step, id);
    }
  }

  // The guard is what a commit waits for: it is held up by any reader, and goes ahead as soon
  // as the last one is gone.
  lemma {:induction false} CommitWaits(chain: seq<Block>, n: Node, id: ReaderId)
    requires n.database < |chain| && n.phase.Idle? && n.database < n.top < |chain| && id in n.readers
    ensures Next(chain, n, Commit) == n
    ensures n.readers.Keys == {id} ==>
              Next(chain, Next(chain, n, Release(id)), Commit).database == n.database + 1
  {
    assert n.readers.Keys == {id} ==> n.readers - {id} == map[];
  }

  ghost predicate Current(chain: seq<Block>, n: Node)
    requires n.database < |chain|
  {
    n.cursor.stateRoot == chain[n.database].stateRoot
  }

  lemma {:induction false} ThreeSteps(chain: seq<Block>, n: Node, id: ReaderId, evidence: bool)
    requires Inv(chain, n) && n.service.Serving? && id !in n.readers
    ensures var m := Next(chain, Next(chain, Next(chain, n, Acquire(id)), Sample(id)), Lookup(id, evidence));
            && id in m.readers
            && (m.readers[id].Read? <==> evidence || Current(chain, n))
            && (m.readers[id].Unproved? <==> !evidence && !Current(chain, n))
  {
  }

  // Progress: in any run that reached a serving node, three steps of a new reader give it
  // its block or tell it that finality evidence is missing. It is told so exactly when the
  // archive has none and the database's state is not the published one, which is only
  // between a commit and its publication.
  lemma {:induction false} ReadAnswered(chain: seq<Block>, steps: seq<Step>, id: ReaderId, evidence: bool)
    requires chain != [] && Run(chain, steps).service.Serving? && id !in Run(chain, steps).readers
    ensures var n := Run(chain, steps);
            var m := Run(chain, steps + [Acquire(id)] + [Sample(id)] + [Lookup(id, evidence)]);
            && id in m.readers
            && (m.readers[id].Read? <==> evidence || Current(chain, n))
            && (m.readers[id].Unproved? <==> !evidence && !Current(chain, n))
            && (!Current(chain, n) ==> n.phase.Committed? && n.cursor.height + 1 == n.database)
  {
    Extend(chain, steps, Acquire(id));
    Extend(chain, steps + [Acquire(id)], Sample(id));
    Extend(chain, steps + [Acquire(id)] + [Sample(id)], Lookup(id, evidence));
    ThreeSteps(chain, Run(chain, steps), id, evidence);
  }

  // Such a moment exists: right after the first commit of a block that changes the state,
  // with no evidence for it yet.
  lemma {:induction false} EvidenceMissing(chain: seq<Block>) returns (steps: seq<Step>)
    requires |chain| >= 2 && chain[0].stateRoot != chain[1].stateRoot
    ensures var n := Run(chain, steps); 0 in n.readers && n.readers[0].Unproved?
  {
    var before := Reachable(chain, 0);
    Extend(chain, before, Report);
    Extend(chain, before + [Report], Commit);
    steps := before + [Report] + [Commit];
    ReadAnswered(chain, steps, 0, false);
    steps := steps + [Acquire(0)] + [Sample(0)] + [Lookup(0, false)];
  }

  // A restarted node is serving again after one restore, at whichever of the two heights
  // the archive acknowledged.
  lemma {:induction false} RestartRecovers(chain: seq<Block>, steps: seq<Step>, next: nat, processed: nat, retain: nat)
    requires chain != [] && processed <= Run(chain, steps).database <= processed + 1
    ensures var n := Run(chain, steps + [Restart(next)] + [Restore(processed, retain)]);
            n.service.Serving? && n.database == Run(chain, steps).database
  {
    Extend(chain, steps, Restart(next));
    Extend(chain, steps + [Restart(next)], Restore(processed, retain));
    RestoredServes(chain, Run(chain, steps + [Restart(next)]), processed, retain);
  }

  // What a restore publishes: a block with all three commitments of the database's, the
  // later one of the two candidates if both have them.
  lemma {:induction false} RestoreBinds(chain: seq<Block>, n: Node, processed: nat, retain: nat)
    requires Inv(chain, n) && n.service.Restoring? && processed <= n.database <= processed + 1
    ensures var m := Next(chain, n, Restore(processed, retain));
            var b, last := chain[m.cursor.height], Max(processed, n.cursor.height) + 1;
            && m.service.Serving? && m.cursor == CursorAt(chain, m.cursor.height) && m.cursor.height <= last
            && b.stateRoot == chain[n.database].stateRoot && b.ownerRoot == chain[n.database].ownerRoot
            && b.syncTarget == chain[n.database].syncTarget
            && (m.cursor.height < last ==> !Fits(chain, n, last))
  {
    RestoredServes(chain, n, processed, retain);
  }

  ghost predicate Served(n: Node, h: nat) {
    n.floor <= h <= n.top
  }

  ghost predicate Archived(n: Node, h: nat) {
    n.stored <= h <= n.top
  }

  // Pruning keeps the last `retain` heights up to the published one to be served, and at least
  // the last two in the archive; it takes away every older one and nothing else.
  lemma {:induction false} PruneExact(chain: seq<Block>, n: Node, retain: nat, h: nat)
    requires n.database < |chain| && n.phase.Published? && retain > 0
    ensures var m := Next(chain, n, Prune(retain));
            && (Served(m, h) <==> Served(n, h) && n.database < h + retain)
            && (Archived(m, h) <==> Archived(n, h) && (n.database < h + retain || n.database < h + 2))
            && m == n.(floor := m.floor, stored := m.stored)
  {
  }

  // The block a looked-up read names is one the archive still has and serves, with evidence,
  // and its state is the database's.
  lemma {:induction false} LookupExact(chain: seq<Block>, n: Node, c: Cursor, evidence: bool)
    requires n.database < |chain|
    ensures LookupNext(chain, n, c, evidence).Read? <==>
              && Served(n, c.height + 1) && Archived(n, c.height + 1) && c.height + 1 < |chain| && evidence
              && chain[c.height + 1].stateRoot == chain[n.database].stateRoot
    ensures LookupNext(chain, n, c, evidence).Unproved? <==>
              Served(n, c.height + 1) && Archived(n, c.height + 1) && c.height + 1 < |chain| && !evidence
  {
  }

  ghost function Replays(chain: seq<Block>, n: Node, k: nat): Node
    requires Inv(chain, n)
    ensures Inv(chain, Replays(chain, n, k))
    decreases chain, k
  {
    if k == 0 then n
    else
      var m := Replays(chain, n, k - 1);
      StepKeeps(chain, m, Replay);
      Next(chain, m, Replay)
  }

  lemma {:induction false} ReplaysTo(chain: seq<Block>, n: Node, k: nat)
    requires Inv(chain, n) && n.phase.Replaying? && n.phase.next + k <= n.database
    ensures Replays(chain, n, k).phase == Replaying(n.phase.next + k)
    ensures Replays(chain, n, k).database == n.database && Replays(chain, n, k).service == n.service
  {
    if k > 0 {
      ReplaysTo(chain, n, k - 1);
    }
  }

  // A serving node that trails after a restart is through after one notification for each
  // trailing block, and its cursor is then that of the database's state.
  lemma {:induction false} ReplayEnds(chain: seq<Block>, n: Node)
    requires Inv(chain, n) && n.service.Serving? && n.phase.Replaying?
    ensures var m := Replays(chain, n, n.database - n.phase.next + 1);
            m.phase.Idle? && m.database == n.database && Current(chain, m) && m.cursor.height >= m.database
  {
    var k := n.database - n.phase.next;
    ReplaysTo(chain, n, k);
    assert Replays(chain, n, k + 1) == Next(chain, Replays(chain, n, k), Replay);
  }

  function At(chain: seq<Block>, h: nat): Node
    requires h < |chain|
  {
    Node(h, CursorAt(chain, h), Idle, Serving, 0, 0, h, map[])
  }

  lemma {:induction false} OneMore(chain: seq<Block>, h: nat)
    requires h + 1 < |chain|
    ensures Next(chain, Next(chain, Next(chain, Next(chain, At(chain, h), Report), Commit), Publish), Return)
            == At(chain, h + 1)
  {
  }

  // Every height is reached by committing and publishing block after block.
  lemma {:induction false} Reachable(chain: seq<Block>, h: nat) returns (steps: seq<Step>)
    requires h < |chain|
    ensures Run(chain, steps) == At(chain, h)
    decreases h
  {
    if h == 0 {
      steps := [Restore(0, 0)];
      Extend(chain, [], Restore(0, 0));
      assert [] + steps == steps;
    } else {
      steps := Reachable(chain, h - 1);
      OneMore(chain, h - 1);
      Extend(chain, steps, Report);
      steps := steps + [Report];
      Extend(chain, steps, Commit);
      steps := steps + [Commit];
      Extend(chain, steps, Publish);
      steps := steps + [Publish];
      Extend(chain, steps, Return);
      steps := steps + [Return];
    }
  }
}
