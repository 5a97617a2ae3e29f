/**
 The validator's mempool: the general lane with its strike accounting, and the window of
 residents re-examined after each finalized block, which rotates with the height.
 Source: crates/chain/src/app.rs.
 */
module Mempool {
  const GENERAL_MEMPOOL_CAPACITY: nat := 120
  const GENERAL_MEMPOOL_MAX_STRIKES: nat := 8
  const RECONCILED_PER_BLOCK: nat := 32
  const U32_MAX: nat := 0xFFFF_FFFF

  type Digest = nat

  datatype Entry = Entry(digest: Digest, strikes: nat)

  datatype SubmitOutcome = Enqueued | Duplicate | Full

  // What re-executing one candidate against committed state shows.
  datatype Verdict = Executable | Transient | Rejected | StorageFault

  // The response lane appears as its digests in slot order.
  datatype Pool = Pool(responses: seq<Digest>, general: seq<Entry>)

  // ---------- The general lane ----------

  ghost predicate Distinct(g: seq<Entry>) {
    forall i, j :: 0 <= i < j < |g| ==> g[i].digest != g[j].digest
  }

  ghost predicate LaneOk(g: seq<Entry>) {
    |g| <= GENERAL_MEMPOOL_CAPACITY && Distinct(g)
  }

  ghost predicate Holds(g: seq<Entry>, d: Digest) {
    exists i :: 0 <= i < |g| && g[i].digest == d
  }

  function Sieve(g: seq<Entry>, keep: Entry -> bool): seq<Entry> {
    if g == [] then []
    else
      var rest := Sieve(g[..|g| - 1], keep);
      if keep(g[|g| - 1]) then rest + [g[|g| - 1]] else rest
  }

  function Evicted(g: seq<Entry>): seq<Entry> {
    Sieve(g, (e: Entry) => e.strikes < GENERAL_MEMPOOL_MAX_STRIKES)
  }

  function Without(g: seq<Entry>, ds: set<Digest>): seq<Entry> {
    Sieve(g, (e: Entry) => e.digest !in ds)
  }

  function Strike(e: Entry): Entry {
    e.(strikes := if e.strikes == U32_MAX then U32_MAX else e.strikes + 1)
  }

  function Struck(g: seq<Entry>, ds: set<Digest>): seq<Entry> {
    seq(|g|, i requires 0 <= i < |g| => if g[i].digest in ds then Strike(g[i]) else g[i])
  }

  function Cleared(g: seq<Entry>, ds: set<Digest>): seq<Entry> {
    seq(|g|, i requires 0 <= i < |g| => if g[i].digest in ds then g[i].(strikes := 0) else g[i])
  }

  // The oldest resident that reconciliation has retained, or |g|.
  function OldestStruck(g: seq<Entry>): nat
  {
    if g == [] then 0
    else
      var k := OldestStruck(g[..|g| - 1]);
      if k < |g| - 1 || g[|g| - 1].strikes > 0 then k else |g|
  }

  lemma {:induction false} OldestStruckExact(g: seq<Entry>)
    ensures OldestStruck(g) <= |g|
    ensures OldestStruck(g) < |g| ==> g[OldestStruck(g)].strikes > 0
    ensures forall i :: 0 <= i < OldestStruck(g) ==> g[i].strikes == 0
  {
    if g != [] {
      OldestStruckExact(g[..|g| - 1]);
    }
  }

  function Admit(g: seq<Entry>, d: Digest): (SubmitOutcome, seq<Entry>) {
    if exists i :: 0 <= i < |g| && g[i].digest == d then (Duplicate, g)
    else if |g| < GENERAL_MEMPOOL_CAPACITY then (Enqueued, g + [Entry(d, 0)])
    else
      OldestStruckExact(g);
      var k := OldestStruck(g);
      if k == |g| then (Full, g) else (Enqueued, g[..k] + g[k + 1..] + [Entry(d, 0)])
  }

  // ---------- What every lane operation keeps ----------

  lemma {:induction false} SieveMembers(g: seq<Entry>, keep: Entry -> bool, e: Entry)
    ensures e in Sieve(g, keep) <==> e in g && keep(e)
  {
    if g != [] {
      var n := |g| - 1;
      SieveMembers(g[..n], keep, e);
      assert g == g[..n] + [g[n]];
    }
  }

  lemma {:induction false} SieveAll(g: seq<Entry>, keep: Entry -> bool)
    requires forall i :: 0 <= i < |g| ==> keep(g[i])
    ensures Sieve(g, keep) == g
  {
    if g != [] {
      SieveAll(g[..|g| - 1], keep);
      assert g == g[..|g| - 1] + [g[|g| - 1]];
    }
  }

  // Sieving goes resident by resident, so those that stay keep their order.
  lemma {:induction false} SieveSplit(a: seq<Entry>, b: seq<Entry>, keep: Entry -> bool)
    ensures Sieve(a + b, keep) == Sieve(a, keep) + Sieve(b, keep)
    decreases |b|
  {
    if b == [] {
      assert a + b == a;
    } else {
      assert (a + b)[..|a + b| - 1] == a + b[..|b| - 1];
      SieveSplit(a, b[..|b| - 1], keep);
    }
  }

  // A sieve only drops residents, so the lane stays bounded and its digests distinct.
  lemma {:induction false} SieveLane(g: seq<Entry>, keep: Entry -> bool)
    requires Distinct(g)
    ensures |Sieve(g, keep)| <= |g| && Distinct(Sieve(g, keep))
  {
    if g != [] {
      var n := |g| - 1;
      SieveLane(g[..n], keep);
      var rest := Sieve(g[..n], keep);
      forall i | 0 <= i < |rest| ensures rest[i].digest != g[n].digest {
        SieveMembers(g[..n], keep, rest[i]);
      }
    }
  }

  // Admission: a newcomer joins at the back; a full lane gives up its oldest struck
  // resident or refuses. No resident without strikes ever leaves.
  lemma {:induction false} AdmitOutcome(g: seq<Entry>, d: Digest)
    requires LaneOk(g)
    ensures LaneOk(Admit(g, d).1)
    ensures Admit(g, d).0 == Duplicate <==> Holds(g, d)
    ensures Admit(g, d).0 == Full <==>
              !Holds(g, d) && |g| == GENERAL_MEMPOOL_CAPACITY && forall i :: 0 <= i < |g| ==> g[i].strikes == 0
    ensures Admit(g, d).0 != Enqueued ==> Admit(g, d).1 == g
    ensures Admit(g, d).0 == Enqueued ==> |Admit(g, d).1| > 0 && Admit(g, d).1[|Admit(g, d).1| - 1] == Entry(d, 0)
  {
    OldestStruckExact(g);
  }

  lemma {:induction false} AdmitSpares(g: seq<Entry>, d: Digest, e: Entry)
    requires LaneOk(g) && e in g
    ensures e.strikes == 0 ==> e in Admit(g, d).1
    ensures e !in Admit(g, d).1 ==>
              |g| == GENERAL_MEMPOOL_CAPACITY && OldestStruck(g) < |g| && e == g[OldestStruck(g)]
  {
    OldestStruckExact(g);
    var i :| 0 <= i < |g| && g[i] == e;
    var k, r := OldestStruck(g), Admit(g, d).1;
    if r != g {
      if |g| < GENERAL_MEMPOOL_CAPACITY || i < k {
        assert r[i] == e;
      } else if i > k {
        assert r[i - 1] == e;
      }
    }
  }

  // A lane with room grows at the back; a full one gives up the first struck resident, and
  // the others keep their order.
  lemma {:induction false} AdmitOrder(g: seq<Entry>, d: Digest)
    requires LaneOk(g) && Admit(g, d).0 == Enqueued
    ensures |g| < GENERAL_MEMPOOL_CAPACITY ==> Admit(g, d).1 == g + [Entry(d, 0)]
    ensures |g| == GENERAL_MEMPOOL_CAPACITY ==>
              exists k :: 0 <= k < |g| && g[k].strikes > 0 && (forall i :: 0 <= i < k ==> g[i].strikes == 0)
                && Admit(g, d).1 == g[..k] + g[k + 1..] + [Entry(d, 0)]
  {
    OldestStruckExact(g);
  }

  datatype Operation =
    | Submit(digest: Digest)
    | StrikeAll(digests: set<Digest>)
    | ClearAll(digests: set<Digest>)
    | EvictOrphans
    | Remove(digests: set<Digest>)

  function Apply(g: seq<Entry>, op: Operation): seq<Entry> {
    match op
    case Submit(d) => Admit(g, d).1
    case StrikeAll(ds) => Struck(g, ds)
    case ClearAll(ds) => Cleared(g, ds)
    case EvictOrphans => Evicted(g)
    case Remove(ds) => Without(g, ds)
  }

  function ApplyAll(g: seq<Entry>, ops: seq<Operation>): seq<Entry> {
    if ops == [] then g else Apply(ApplyAll(g, ops[..|ops| - 1]), ops[|ops| - 1])
  }

  lemma {:induction false} ApplyKeeps(g: seq<Entry>, op: Operation)
    requires LaneOk(g)
    ensures LaneOk(Apply(g, op))
  {
    match op
    case Submit(d) => AdmitOutcome(g, d);
    case StrikeAll(ds) =>
    case ClearAll(ds) =>
    case EvictOrphans => SieveLane(g, (e: Entry) => e.strikes < GENERAL_MEMPOOL_MAX_STRIKES);
    case Remove(ds) => SieveLane(g, (e: Entry) => e.digest !in ds);
  }

  // In every run, however submissions interleave with reconciliation, the lane holds at
  // most its capacity and never one digest twice.
  lemma {:induction false} LaneInvariant(g: seq<Entry>, ops: seq<Operation>)
    requires LaneOk(g)
    ensures LaneOk(ApplyAll(g, ops))
    decreases |ops|
  {
    if ops != [] {
      LaneInvariant(g, ops[..|ops| - 1]);
      ApplyKeeps(ApplyAll(g, ops[..|ops| - 1]), ops[|ops| - 1]);
    }
  }

  predicate Condemns(op: Operation, d: Digest) {
    (op.StrikeAll? || op.Remove?) && d in op.digests
  }

  lemma {:induction false} SparedBy(g: seq<Entry>, op: Operation, d: Digest)
    requires LaneOk(g) && Entry(d, 0) in g && !Condemns(op, d)
    ensures Entry(d, 0) in Apply(g, op)
  {
    var i :| 0 <= i < |g| && g[i] == Entry(d, 0);
    match op
    case Submit(x) => AdmitSpares(g, x, g[i]);
    case StrikeAll(ds) => assert Struck(g, ds)[i] == Entry(d, 0);
    case ClearAll(ds) => assert Cleared(g, ds)[i] == Entry(d, 0);
    case EvictOrphans => SieveMembers(g, (e: Entry) => e.strikes < GENERAL_MEMPOOL_MAX_STRIKES, g[i]);
    case Remove(ds) => SieveMembers(g, (e: Entry) => e.digest !in ds, g[i]);
  }

  // A resident without strikes that reconciliation neither strikes nor rejects stays, and
  // stays without strikes, whatever submissions come between the sections of however many
  // reconciliations.
  lemma {:induction false} Unharmed(g: seq<Entry>, ops: seq<Operation>, d: Digest)
    requires LaneOk(g) && Entry(d, 0) in g
    requires forall i :: 0 <= i < |ops| ==> !Condemns(ops[i], d)
    ensures Entry(d, 0) in ApplyAll(g, ops)
    decreases |ops|
  {
    if ops != [] {
      var front := ops[..|ops| - 1];
      Unharmed(g, front, d);
      LaneInvariant(g, front);
      SparedBy(ApplyAll(g, front), ops[|ops| - 1], d);
    }
  }

  // ---------- The rotating window ----------

  function Min(a: nat, b: nat): nat {
    if a < b then a else b
  }

  function Max(a: nat, b: nat): nat {
    if a < b then b else a
  }

  function Window(n: nat): nat {
    Min(n, RECONCILED_PER_BLOCK)
  }

  // The offset at which the window of height h reaches index i.
  function Offset(n: nat, h: nat, i: nat): nat
    requires i < n
  {
    if i >= h % n then i - h % n else n + i - h % n
  }

  predicate Examined(n: nat, h: nat, i: nat)
    requires i < n
  {
    Offset(n, h, i) < Window(n)
  }

  lemma {:induction false} MulAtLeast(k: int, n: nat)
    requires k >= 1
    ensures k * n >= n
  {
    if k > 1 {
      MulAtLeast(k - 1, n);
      assert k * n == (k - 1) * n + n;
    }
  }

  lemma {:induction false} ModUnique(p: int, q: int, r: nat, t: nat, n: nat)
    requires r < n && t < n && p * n + t == q * n + r
    ensures r == t
  {
    assert p * n - q * n == (p - q) * n && q * n - p * n == (q - p) * n;
    if p > q {
      MulAtLeast(p - q, n);
    } else if p < q {
      MulAtLeast(q - p, n);
    }
  }

  // The loop over offsets visits index i exactly at Offset(n, h, i).
  lemma {:induction false} OffsetExact(n: nat, h: nat, i: nat, offset: nat)
    requires i < n && offset < n
    ensures (h % n + offset) % n == i <==> offset == Offset(n, h, i)
  {
    var x := h % n + offset;
    assert x == (x / n) * n + x % n;
    if x < n {
      ModUnique(x / n, 0, x, x % n, n);
    } else {
      ModUnique(x / n, 1, x - n, x % n, n);
    }
  }

  lemma {:induction false} NextStart(n: nat, h: nat)
    requires n > 0
    ensures (h + 1) % n == if h % n == n - 1 then 0 else h % n + 1
  {
    var a, b := h / n, (h + 1) / n;
    assert h == a * n + h % n && h + 1 == b * n + (h + 1) % n;
    if h % n == n - 1 {
      assert (a + 1) * n == a * n + n;
      ModUnique(b, a + 1, 0, (h + 1) % n, n);
    } else {
      ModUnique(b, a, h % n + 1, (h + 1) % n, n);
    }
  }

  // One block later the window starts one slot further on.
  lemma {:induction false} OffsetMoves(n: nat, h: nat, i: nat)
    requires i < n
    ensures Offset(n, h + 1, i) == if Offset(n, h, i) == 0 then n - 1 else Offset(n, h, i) - 1
  {
    NextStart(n, h);
  }

  // How often index i is examined over the m heights from h.
  ghost function Visits(n: nat, h: nat, i: nat, m: nat): nat
    requires i < n
    decreases n, m
  {
    if m == 0 then 0 else Visits(n, h, i, m - 1) + (if Examined(n, h + m - 1, i) then 1 else 0)
  }

  lemma {:induction false} CountClosed(n: nat, h: nat, i: nat, m: nat)
    requires i < n && m <= n
    ensures var o := Offset(n, h, i);
            && Offset(n, h + m, i) == (if m <= o then o - m else n + o - m)
            && Visits(n, h, i, m) ==
               if m <= o + 1 then Min(o + 1, Window(n)) - Min(o + 1 - m, Window(n))
               else Min(o + 1, Window(n)) + Window(n) - Min(n + o + 1 - m, Window(n))
  {
    if m > 0 {
      CountClosed(n, h, i, m - 1);
      OffsetMoves(n, h + m - 1, i);
    }
  }

  // Rotation: any n consecutive heights examine every resident exactly min(n, 32) times.
  lemma {:induction false} RotationExact(n: nat, h: nat, i: nat)
    requires i < n
    ensures Visits(n, h, i, n) == Min(n, RECONCILED_PER_BLOCK)
  {
    CountClosed(n, h, i, n);
  }

  lemma {:induction false} SmallPool(n: nat, h: nat, i: nat, m: nat)
    requires i < n <= RECONCILED_PER_BLOCK
    ensures Visits(n, h, i, m) == m
  {
    if m > 0 {
      SmallPool(n, h, i, m - 1);
    }
  }

  lemma {:induction false} EnoughExaminations(n: nat, h: nat, i: nat)
    requires i < n
    ensures Visits(n, h, i, Max(n, GENERAL_MEMPOOL_MAX_STRIKES)) >= GENERAL_MEMPOOL_MAX_STRIKES
  {
    if n < GENERAL_MEMPOOL_MAX_STRIKES {
      SmallPool(n, h, i, GENERAL_MEMPOOL_MAX_STRIKES);
    } else {
      RotationExact(n, h, i);
    }
  }

  // ---------- One reconciliation ----------

  datatype Findings = Findings(executable: set<Digest>, transient: set<Digest>, rejected: set<Digest>, faulted: bool)

  type Verdicts = (nat, Digest) -> Verdict

  function Digests(g: seq<Entry>): seq<Digest> {
    seq(|g|, i requires 0 <= i < |g| => g[i].digest)
  }

  function Snapshot(p: Pool): seq<Digest> {
    p.responses + Digests(p.general)
  }

  function Note(f: Findings, d: Digest, v: Verdict): Findings {
    match v
    case Executable => f.(executable := f.executable + {d})
    case Transient => f.(transient := f.transient + {d})
    case Rejected => f.(rejected := f.rejected + {d})
    case StorageFault => f.(faulted := true)
  }

  // The first k candidates of the window; a storage fault ends the inspection.
  function Inspect(snap: seq<Digest>, h: nat, k: nat, out: Verdicts): Findings
    requires k <= |snap|
    decreases snap, k
  {
    if k == 0 then Findings({}, {}, {}, false)
    else
      var f := Inspect(snap, h, k - 1, out);
      if f.faulted then f
      else
        var d := snap[(h % |snap| + (k - 1)) % |snap|];
        Note(f, d, out(h, d))
  }

  function DigestsWithout(rs: seq<Digest>, ds: set<Digest>): seq<Digest> {
    if rs == [] then []
    else DigestsWithout(rs[..|rs| - 1], ds) + if rs[|rs| - 1] in ds then [] else [rs[|rs| - 1]]
  }

  function Settle(p: Pool, f: Findings): Pool {
    Pool(DigestsWithout(p.responses, f.rejected),
         Without(Evicted(Struck(Cleared(p.general, f.executable), f.transient)), f.rejected))
  }

  function After(p: Pool, h: nat, out: Verdicts): Pool {
    Settle(p, Inspect(Snapshot(p), h, Window(|Snapshot(p)|), out))
  }

  // A run of reconciliations at consecutive heights.
  ghost predicate StepAt(run: seq<Pool>, h: nat, out: Verdicts, j: nat) {
    j + 1 < |run| && run[j + 1] == After(run[j], h + j, out)
  }

  ghost predicate IsRun(run: seq<Pool>, h: nat, out: Verdicts) {
    run != [] && forall j :: 0 <= j < |run| - 1 ==> StepAt(run, h, out, j)
  }

  ghost predicate DistinctSeq(snap: seq<Digest>) {
    forall i, j :: 0 <= i < j < |snap| ==> snap[i] != snap[j]
  }

  ghost predicate NoFault(snap: seq<Digest>, h: nat, out: Verdicts) {
    forall i :: 0 <= i < |snap| ==> out(h, snap[i]) != StorageFault
  }

  // Without faults, a resident is noted under its verdict exactly when the window reached it.
  lemma {:induction false} InspectExact(snap: seq<Digest>, h: nat, k: nat, out: Verdicts, i: nat)
    requires i < |snap| && k <= |snap| && DistinctSeq(snap) && NoFault(snap, h, out)
    ensures var f, d, hit := Inspect(snap, h, k, out), snap[i], Offset(|snap|, h, i) < k;
            && !f.faulted
            && (d in f.executable <==> hit && out(h, d) == Executable)
            && (d in f.transient <==> hit && out(h, d) == Transient)
            && (d in f.rejected <==> hit && out(h, d) == Rejected)
  {
    if k > 0 {
      InspectExact(snap, h, k - 1, out, i);
      OffsetExact(|snap|, h, i, k - 1);
      var j := (h % |snap| + (k - 1)) % |snap|;
      assert snap[i] == snap[j] <==> i == j;
    }
  }

  lemma {:induction false} HoldsEntry(g: seq<Entry>, d: Digest)
    ensures Holds(g, d) <==> exists e :: e in g && e.digest == d
  {
    if Holds(g, d) {
      var i :| 0 <= i < |g| && g[i].digest == d;
      assert g[i] in g;
    }
  }

  function Marked(e: Entry, f: Findings): Entry {
    var c := if e.digest in f.executable then e.(strikes := 0) else e;
    if e.digest in f.transient then Strike(c) else c
  }

  // Settling, entry by entry: the survivors are the marked entries still under the bound
  // and not rejected.
  lemma {:induction false} SettleMembers(p: Pool, f: Findings, e: Entry)
    ensures e in Settle(p, f).general <==>
              && e.strikes < GENERAL_MEMPOOL_MAX_STRIKES && e.digest !in f.rejected
              && exists i :: 0 <= i < |p.general| && e == Marked(p.general[i], f)
  {
    var marked := Struck(Cleared(p.general, f.executable), f.transient);
    assert forall i :: 0 <= i < |p.general| ==> marked[i] == Marked(p.general[i], f);
    SieveMembers(marked, (e: Entry) => e.strikes < GENERAL_MEMPOOL_MAX_STRIKES, e);
    SieveMembers(Evicted(marked), (e: Entry) => e.digest !in f.rejected, e);
  }

  function StrikesAfter(s: nat, n: nat, h: nat, i: nat): nat
    requires i < n
  {
    s + if Examined(n, h, i) then 1 else 0
  }

  // One block for a general resident at snapshot index i that is found transient.
  lemma {:induction false} OneBlock(p: Pool, h: nat, out: Verdicts, i: nat)
    requires |p.responses| <= i < |Snapshot(p)| && DistinctSeq(Snapshot(p)) && NoFault(Snapshot(p), h, out)
    requires out(h, Snapshot(p)[i]) == Transient
    requires p.general[i - |p.responses|].strikes < GENERAL_MEMPOOL_MAX_STRIKES
    ensures var e := p.general[i - |p.responses|];
            var s := StrikesAfter(e.strikes, |Snapshot(p)|, h, i);
            if s < GENERAL_MEMPOOL_MAX_STRIKES then Entry(e.digest, s) in After(p, h, out).general
            else !Holds(After(p, h, out).general, e.digest)
  {
    var snap, g := Snapshot(p), i - |p.responses|;
    var f := Inspect(snap, h, Window(|snap|), out);
    var e := p.general[g];
    assert snap[i] == e.digest;
    InspectExact(snap, h, Window(|snap|), out, i);
    var m := Marked(e, f);
    assert m == Entry(e.digest, StrikesAfter(e.strikes, |snap|, h, i));
    SettleMembers(p, f, m);
    if m.strikes >= GENERAL_MEMPOOL_MAX_STRIKES {
      HoldsEntry(After(p, h, out).general, e.digest);
      forall x | x in After(p, h, out).general ensures x.digest != e.digest {
        SettleMembers(p, f, x);
        var j :| 0 <= j < |p.general| && x == Marked(p.general[j], f);
        assert snap[j + |p.responses|] == p.general[j].digest;
      }
    }
  }

  // ---------- One block, for every resident ----------

  // Filtering keeps exactly the digests outside the set, in their order.
  lemma {:induction false} FilterSplit(a: seq<Digest>, b: seq<Digest>, ds: set<Digest>)
    ensures DigestsWithout(a + b, ds) == DigestsWithout(a, ds) + DigestsWithout(b, ds)
    decreases |b|
  {
    if b == [] {
      assert a + b == a;
    } else {
      assert (a + b)[..|a + b| - 1] == a + b[..|b| - 1];
      FilterSplit(a, b[..|b| - 1], ds);
    }
  }

  lemma {:induction false} FilterMembers(rs: seq<Digest>, ds: set<Digest>, d: Digest)
    ensures d in DigestsWithout(rs, ds) <==> d in rs && d !in ds
    ensures (forall i :: 0 <= i < |rs| ==> rs[i] in ds) ==> DigestsWithout(rs, ds) == []
  {
    if rs != [] {
      FilterMembers(rs[..|rs| - 1], ds, d);
      assert rs == rs[..|rs| - 1] + [rs[|rs| - 1]];
    }
  }

  // A response leaves the pool exactly when the window reached it and it was rejected.
  lemma {:induction false} ResponseBlock(p: Pool, h: nat, out: Verdicts, i: nat)
    requires i < |p.responses| && DistinctSeq(Snapshot(p)) && NoFault(Snapshot(p), h, out)
    ensures p.responses[i] in After(p, h, out).responses <==>
              !(Examined(|Snapshot(p)|, h, i) && out(h, p.responses[i]) == Rejected)
  {
    var snap := Snapshot(p);
    var f := Inspect(snap, h, Window(|snap|), out);
    assert snap[i] == p.responses[i];
    InspectExact(snap, h, Window(|snap|), out, i);
    FilterMembers(p.responses, f.rejected, p.responses[i]);
  }

  // What one block makes of a resident's strikes: an executable one is cleared, a transient
  // one struck, and one out of the window's reach keeps them.
  function StrikesNow(s: nat, examined: bool, v: Verdict): nat {
    if examined && v == Executable then 0 else if examined && v == Transient then s + 1 else s
  }

  // A general resident stays exactly when it was not rejected and its strikes are below the
  // bound, and then with those strikes.
  lemma {:induction false} ResidentBlock(p: Pool, h: nat, out: Verdicts, i: nat)
    requires |p.responses| <= i < |Snapshot(p)| && DistinctSeq(Snapshot(p)) && NoFault(Snapshot(p), h, out)
    requires p.general[i - |p.responses|].strikes < GENERAL_MEMPOOL_MAX_STRIKES
    ensures var e, examined := p.general[i - |p.responses|], Examined(|Snapshot(p)|, h, i);
            var s := StrikesNow(e.strikes, examined, out(h, e.digest));
            if s < GENERAL_MEMPOOL_MAX_STRIKES && !(examined && out(h, e.digest) == Rejected)
            then Entry(e.digest, s) in After(p, h, out).general
            else !Holds(After(p, h, out).general, e.digest)
  {
    var snap, e := Snapshot(p), p.general[i - |p.responses|];
    var f := Inspect(snap, h, Window(|snap|), out);
    assert snap[i] == e.digest;
    InspectExact(snap, h, Window(|snap|), out, i);
    var m := Marked(e, f);
    assert m == Entry(e.digest, StrikesNow(e.strikes, Examined(|snap|, h, i), out(h, e.digest)));
    SettleMembers(p, f, m);
    if m !in After(p, h, out).general {
      HoldsEntry(After(p, h, out).general, e.digest);
      forall x | x in After(p, h, out).general ensures x.digest != e.digest {
        SettleMembers(p, f, x);
        var j :| 0 <= j < |p.general| && x == Marked(p.general[j], f);
        assert snap[j + |p.responses|] == p.general[j].digest;
      }
    }
  }

  // A storage fault ends the inspection: what was found before it still counts, and nothing
  // behind it does.
  lemma {:induction false} FaultEnds(snap: seq<Digest>, h: nat, k: nat, j: nat, out: Verdicts)
    requires j < k <= |snap| && !Inspect(snap, h, j, out).faulted
    requires out(h, snap[(h % |snap| + j) % |snap|]) == StorageFault
    ensures Inspect(snap, h, k, out) == Inspect(snap, h, j, out).(faulted := true)
    decreases k
  {
    if j < k - 1 {
      FaultEnds(snap, h, k - 1, j, out);
    }
  }

  // ---------- Eviction over a run of blocks ----------

  ghost predicate SameResidents(p: Pool, q: Pool) {
    p.responses == q.responses && Digests(p.general) == Digests(q.general)
  }

  // The pool keeps its membership and order through k blocks.
  ghost predicate KeptThrough(run: seq<Pool>, k: nat) {
    k < |run| && forall j :: 0 <= j <= k ==> SameResidents(run[j], run[0])
  }

  // The general resident at snapshot index i is found transient at every height.
  ghost predicate AlwaysTransient(p: Pool, h: nat, out: Verdicts, i: nat) {
    && |p.responses| <= i < |Snapshot(p)| && DistinctSeq(Snapshot(p))
    && p.general[i - |p.responses|].strikes < GENERAL_MEMPOOL_MAX_STRIKES
    && forall k: nat :: k >= h ==> NoFault(Snapshot(p), k, out) && out(k, Snapshot(p)[i]) == Transient
  }

  ghost function StrikesAt(p: Pool, h: nat, i: nat, k: nat): nat
    requires |p.responses| <= i < |Snapshot(p)|
  {
    p.general[i - |p.responses|].strikes + Visits(|Snapshot(p)|, h, i, k)
  }

  lemma {:induction false} EntryAt(p: Pool, i: nat, e: Entry)
    requires |p.responses| <= i < |Snapshot(p)| && DistinctSeq(Snapshot(p)) && Snapshot(p)[i] == e.digest
    ensures Holds(p.general, e.digest)
    ensures e in p.general ==> p.general[i - |p.responses|] == e
  {
    assert p.general[i - |p.responses|].digest == e.digest;
    if e in p.general {
      var x :| 0 <= x < |p.general| && p.general[x] == e;
      assert Snapshot(p)[x + |p.responses|] == e.digest;
    }
  }

  // A kept resident that was examined carries one more strike.
  lemma {:induction false} KeptBlock(p: Pool, h: nat, out: Verdicts, i: nat)
    requires |p.responses| <= i < |Snapshot(p)| && DistinctSeq(Snapshot(p)) && NoFault(Snapshot(p), h, out)
    requires out(h, Snapshot(p)[i]) == Transient && SameResidents(After(p, h, out), p)
    requires p.general[i - |p.responses|].strikes < GENERAL_MEMPOOL_MAX_STRIKES
    ensures var s := StrikesAfter(p.general[i - |p.responses|].strikes, |Snapshot(p)|, h, i);
            s < GENERAL_MEMPOOL_MAX_STRIKES && After(p, h, out).general[i - |p.responses|].strikes == s
  {
    OneBlock(p, h, out, i);
    var s := StrikesAfter(p.general[i - |p.responses|].strikes, |Snapshot(p)|, h, i);
    EntryAt(After(p, h, out), i, Entry(Snapshot(p)[i], s));
  }

  // While the pool is kept, the resident carries one strike for each examination.
  lemma {:induction false} StrikesCount(run: seq<Pool>, h: nat, out: Verdicts, i: nat, k: nat)
    requires IsRun(run, h, out) && AlwaysTransient(run[0], h, out, i) && KeptThrough(run, k)
    ensures StrikesAt(run[0], h, i, k) < GENERAL_MEMPOOL_MAX_STRIKES
    ensures run[k].general[i - |run[0].responses|].strikes == StrikesAt(run[0], h, i, k)
  {
    if k > 0 {
      StrikesCount(run, h, out, i, k - 1);
      assert StepAt(run, h, out, k - 1);
      KeptBlock(run[k - 1], h + k - 1, out, i);
    }
  }

  // The block at which the resident's strikes reach the bound.
  lemma {:induction false} LastBlock(p: Pool, h: nat, i: nat) returns (k: nat)
    requires |p.responses| <= i < |Snapshot(p)|
    requires p.general[i - |p.responses|].strikes < GENERAL_MEMPOOL_MAX_STRIKES
    ensures 1 <= k <= Max(|Snapshot(p)|, GENERAL_MEMPOOL_MAX_STRIKES)
    ensures StrikesAt(p, h, i, k - 1) < GENERAL_MEMPOOL_MAX_STRIKES <= StrikesAt(p, h, i, k)
  {
    var bound := Max(|Snapshot(p)|, GENERAL_MEMPOOL_MAX_STRIKES);
    EnoughExaminations(|Snapshot(p)|, h, i);
    k := 1;
    while StrikesAt(p, h, i, k) < GENERAL_MEMPOOL_MAX_STRIKES
      invariant 1 <= k <= bound && StrikesAt(p, h, i, k - 1) < GENERAL_MEMPOOL_MAX_STRIKES
      decreases bound - k
    {
      k := k + 1;
    }
  }

  lemma {:induction false} KeptSnapshot(run: seq<Pool>, k: nat)
    requires KeptThrough(run, k)
    ensures Snapshot(run[k]) == Snapshot(run[0]) && |run[k].responses| == |run[0].responses|
  {
    assert SameResidents(run[k], run[0]);
  }

  lemma {:induction false} LeavesNow(p: Pool, h: nat, out: Verdicts, i: nat)
    requires |p.responses| <= i < |Snapshot(p)| && DistinctSeq(Snapshot(p)) && NoFault(Snapshot(p), h, out)
    requires out(h, Snapshot(p)[i]) == Transient
    requires p.general[i - |p.responses|].strikes < GENERAL_MEMPOOL_MAX_STRIKES
    requires StrikesAfter(p.general[i - |p.responses|].strikes, |Snapshot(p)|, h, i) >= GENERAL_MEMPOOL_MAX_STRIKES
    ensures !Holds(After(p, h, out).general, Snapshot(p)[i])
  {
    OneBlock(p, h, out, i);
    assert Snapshot(p)[i] == p.general[i - |p.responses|].digest;
  }

  lemma {:induction false} LastVisit(run: seq<Pool>, h: nat, out: Verdicts, i: nat, k: nat)
    requires IsRun(run, h, out) && AlwaysTransient(run[0], h, out, i) && 1 <= k < |run| && KeptThrough(run, k - 1)
    requires StrikesAt(run[0], h, i, k - 1) < GENERAL_MEMPOOL_MAX_STRIKES <= StrikesAt(run[0], h, i, k)
    ensures !Holds(run[k].general, Snapshot(run[0])[i])
  {
    StrikesCount(run, h, out, i, k - 1);
    assert StepAt(run, h, out, k - 1);
    KeptSnapshot(run, k - 1);
    assert NoFault(Snapshot(run[0]), h + k - 1, out);
    LeavesNow(run[k - 1], h + k - 1, out, i);
  }

  // Eviction: there is a block k, at most max(n, 8) on, such that a pool kept until then
  // loses the resident at k, and not before.
  lemma {:induction false} EvictionExact(run: seq<Pool>, h: nat, out: Verdicts, i: nat) returns (k: nat)
    requires IsRun(run, h, out) && AlwaysTransient(run[0], h, out, i)
    requires |run| > Max(|Snapshot(run[0])|, GENERAL_MEMPOOL_MAX_STRIKES)
    ensures 1 <= k <= Max(|Snapshot(run[0])|, GENERAL_MEMPOOL_MAX_STRIKES)
    ensures forall j: nat :: KeptThrough(run, j) ==> j < k
    ensures KeptThrough(run, k - 1) ==> !Holds(run[k].general, Snapshot(run[0])[i])
  {
    k := LastBlock(run[0], h, i);
    forall j: nat | KeptThrough(run, j) ensures j < k {
      if j >= k {
        StrikesCount(run, h, out, i, k);
      }
    }
    if KeptThrough(run, k - 1) {
      LastVisit(run, h, out, i, k);
    }
  }

  // ---------- An orphan among executable residents ----------

  ghost predicate Settled(g: seq<Entry>) {
    forall j :: 0 <= j < |g| ==> g[j].strikes < GENERAL_MEMPOOL_MAX_STRIKES
  }

  ghost predicate OthersExecutable(snap: seq<Digest>, h: nat, out: Verdicts, i: nat) {
    forall j :: 0 <= j < |snap| && j != i ==> out(h, snap[j]) == Executable
  }

  lemma {:induction false} NothingDropped(rs: seq<Digest>, ds: set<Digest>)
    requires forall j :: 0 <= j < |rs| ==> rs[j] !in ds
    ensures DigestsWithout(rs, ds) == rs
  {
    if rs != [] {
      NothingDropped(rs[..|rs| - 1], ds);
      assert rs == rs[..|rs| - 1] + [rs[|rs| - 1]];
    }
  }

  lemma {:induction false} MarkedOthers(p: Pool, h: nat, out: Verdicts, i: nat, j: nat)
    requires i < |Snapshot(p)| && DistinctSeq(Snapshot(p)) && NoFault(Snapshot(p), h, out)
    requires out(h, Snapshot(p)[i]) == Transient && OthersExecutable(Snapshot(p), h, out, i)
    requires j < |Snapshot(p)| && Settled(p.general)
    ensures var f := Inspect(Snapshot(p), h, Window(|Snapshot(p)|), out);
            && Snapshot(p)[j] !in f.rejected
            && (j >= |p.responses| && j != i ==>
                  Marked(p.general[j - |p.responses|], f).strikes < GENERAL_MEMPOOL_MAX_STRIKES)
            && (j >= |p.responses| && j == i ==>
                  Marked(p.general[j - |p.responses|], f).strikes ==
                    StrikesAfter(p.general[j - |p.responses|].strikes, |Snapshot(p)|, h, i))
  {
    InspectExact(Snapshot(p), h, Window(|Snapshot(p)|), out, j);
    assert j >= |p.responses| ==> Snapshot(p)[j] == p.general[j - |p.responses|].digest;
  }

  // Below the bound the block keeps every resident.
  lemma {:induction false} QuietResponses(p: Pool, h: nat, out: Verdicts, i: nat)
    requires i < |Snapshot(p)| && DistinctSeq(Snapshot(p)) && NoFault(Snapshot(p), h, out)
    requires out(h, Snapshot(p)[i]) == Transient && OthersExecutable(Snapshot(p), h, out, i) && Settled(p.general)
    ensures After(p, h, out).responses == p.responses
  {
    var f := Inspect(Snapshot(p), h, Window(|Snapshot(p)|), out);
    forall j | 0 <= j < |p.responses| ensures p.responses[j] !in f.rejected {
      MarkedOthers(p, h, out, i, j);
      assert Snapshot(p)[j] == p.responses[j];
    }
    NothingDropped(p.responses, f.rejected);
  }

  lemma {:induction false} QuietGeneral(p: Pool, h: nat, out: Verdicts, i: nat)
    requires |p.responses| <= i < |Snapshot(p)| && DistinctSeq(Snapshot(p)) && NoFault(Snapshot(p), h, out)
    requires out(h, Snapshot(p)[i]) == Transient && OthersExecutable(Snapshot(p), h, out, i) && Settled(p.general)
    requires StrikesAfter(p.general[i - |p.responses|].strikes, |Snapshot(p)|, h, i) < GENERAL_MEMPOOL_MAX_STRIKES
    ensures Digests(After(p, h, out).general) == Digests(p.general) && Settled(After(p, h, out).general)
  {
    var f := Inspect(Snapshot(p), h, Window(|Snapshot(p)|), out);
    forall j | 0 <= j < |p.general|
      ensures Marked(p.general[j], f).strikes < GENERAL_MEMPOOL_MAX_STRIKES && p.general[j].digest !in f.rejected
    {
      MarkedOthers(p, h, out, i, j + |p.responses|);
      assert Snapshot(p)[j + |p.responses|] == p.general[j].digest;
    }
    SettleQuiet(p, f);
  }

  lemma {:induction false} SettleQuiet(p: Pool, f: Findings)
    requires forall j :: 0 <= j < |p.general| ==>
               Marked(p.general[j], f).strikes < GENERAL_MEMPOOL_MAX_STRIKES && p.general[j].digest !in f.rejected
    ensures Digests(Settle(p, f).general) == Digests(p.general) && Settled(Settle(p, f).general)
  {
    var marked := Struck(Cleared(p.general, f.executable), f.transient);
    assert forall j :: 0 <= j < |marked| ==> marked[j] == Marked(p.general[j], f);
    SieveAll(marked, (e: Entry) => e.strikes < GENERAL_MEMPOOL_MAX_STRIKES);
    SieveAll(marked, (e: Entry) => e.digest !in f.rejected);
  }

  lemma {:induction false} QuietTurn(p: Pool, q: Pool, h: nat, out: Verdicts, i: nat)
    requires SameResidents(q, p) && Settled(q.general) && |p.responses| <= i < |Snapshot(p)|
    requires DistinctSeq(Snapshot(p)) && NoFault(Snapshot(p), h, out)
    requires out(h, Snapshot(p)[i]) == Transient && OthersExecutable(Snapshot(p), h, out, i)
    requires StrikesAfter(q.general[i - |p.responses|].strikes, |Snapshot(p)|, h, i) < GENERAL_MEMPOOL_MAX_STRIKES
    ensures SameResidents(After(q, h, out), p) && Settled(After(q, h, out).general)
  {
    assert Snapshot(q) == Snapshot(p);
    QuietResponses(q, h, out, i);
    QuietGeneral(q, h, out, i);
  }

  lemma {:induction false} QuietBlocks(run: seq<Pool>, h: nat, out: Verdicts, i: nat, k: nat)
    requires IsRun(run, h, out) && AlwaysTransient(run[0], h, out, i) && Settled(run[0].general) && k < |run|
    requires forall m: nat :: m >= h ==> OthersExecutable(Snapshot(run[0]), m, out, i)
    requires StrikesAt(run[0], h, i, k) < GENERAL_MEMPOOL_MAX_STRIKES
    ensures KeptThrough(run, k) && Settled(run[k].general)
  {
    if k > 0 {
      QuietBlocks(run, h, out, i, k - 1);
      StrikesCount(run, h, out, i, k - 1);
      assert StepAt(run, h, out, k - 1);
      QuietTurn(run[0], run[k - 1], h + k - 1, out, i);
    }
  }

  // When every other resident executes, the orphan alone is evicted, within max(n, 8)
  // blocks, and all the others are still there.
  lemma {:induction false} LoneOrphan(run: seq<Pool>, h: nat, out: Verdicts, i: nat) returns (k: nat)
    requires IsRun(run, h, out) && AlwaysTransient(run[0], h, out, i) && Settled(run[0].general)
    requires forall m: nat :: m >= h ==> OthersExecutable(Snapshot(run[0]), m, out, i)
    requires |run| > Max(|Snapshot(run[0])|, GENERAL_MEMPOOL_MAX_STRIKES)
    ensures 1 <= k <= Max(|Snapshot(run[0])|, GENERAL_MEMPOOL_MAX_STRIKES)
    ensures forall d :: Holds(run[k].general, d) <==> Holds(run[0].general, d) && d != Snapshot(run[0])[i]
  {
    k := LastBlock(run[0], h, i);
    QuietBlocks(run, h, out, i, k - 1);
    LastVisit(run, h, out, i, k);
    forall d ensures Holds(run[k].general, d) <==> Holds(run[0].general, d) && d != Snapshot(run[0])[i] {
      if d != Snapshot(run[0])[i] {
        assert StepAt(run, h, out, k - 1);
        OthersSurvive(run[k - 1], h + k - 1, out, i, d);
        SameHolds(run[0].general, run[k - 1].general, d);
      }
    }
  }

  lemma {:induction false} SameHolds(a: seq<Entry>, b: seq<Entry>, d: Digest)
    requires Digests(a) == Digests(b)
    ensures Holds(a, d) <==> Holds(b, d)
  {
    assert |Digests(a)| == |a| && |Digests(b)| == |b|;
    if Holds(a, d) {
      var j :| 0 <= j < |a| && a[j].digest == d;
      assert Digests(a)[j] == Digests(b)[j] == b[j].digest;
    }
    if Holds(b, d) {
      var j :| 0 <= j < |b| && b[j].digest == d;
      assert Digests(b)[j] == Digests(a)[j] == a[j].digest;
    }
  }

  lemma {:induction false} OthersSurvive(p: Pool, h: nat, out: Verdicts, i: nat, d: Digest)
    requires |p.responses| <= i < |Snapshot(p)| && DistinctSeq(Snapshot(p)) && NoFault(Snapshot(p), h, out)
    requires out(h, Snapshot(p)[i]) == Transient && OthersExecutable(Snapshot(p), h, out, i) && Settled(p.general)
    requires d != Snapshot(p)[i]
    ensures Holds(After(p, h, out).general, d) <==> Holds(p.general, d)
  {
    var f := Inspect(Snapshot(p), h, Window(|Snapshot(p)|), out);
    HoldsEntry(After(p, h, out).general, d);
    if Holds(p.general, d) {
      var j :| 0 <= j < |p.general| && p.general[j].digest == d;
      assert Snapshot(p)[j + |p.responses|] == d;
      MarkedOthers(p, h, out, i, j + |p.responses|);
      SettleMembers(p, f, Marked(p.general[j], f));
    }
    if Holds(After(p, h, out).general, d) {
      var e :| e in After(p, h, out).general && e.digest == d;
      SettleMembers(p, f, e);
    }
  }

  // ---------- Eviction in a pool that moves ----------

  // Between two reconciliations come submissions and removals that do not name the resident.
  ghost predicate Bystander(op: Operation, d: Digest) {
    (op.Submit? && op.digest != d) || (op.Remove? && d !in op.digests)
  }

  ghost predicate Bystanders(ops: seq<Operation>, d: Digest) {
    forall i :: 0 <= i < |ops| ==> Bystander(ops[i], d)
  }

  // Reconciliations at consecutive heights, with gaps in which the general lane takes
  // operations and the response lane may become anything.
  ghost predicate GapAt(run: seq<Pool>, gaps: seq<seq<Operation>>, h: nat, out: Verdicts, j: nat) {
    && j + 1 < |run| && j < |gaps|
    && run[j + 1].general == ApplyAll(After(run[j], h + j, out).general, gaps[j])
  }

  ghost predicate IsBusyRun(run: seq<Pool>, gaps: seq<seq<Operation>>, h: nat, out: Verdicts, d: Digest) {
    && run != [] && |gaps| == |run| - 1
    && (forall j :: 0 <= j < |run| - 1 ==> GapAt(run, gaps, h, out, j) && Bystanders(gaps[j], d))
    && (forall j :: 0 <= j < |run| ==> Orderly(run[j], h + j, out))
    && (forall j: nat :: j >= h ==> out(j, d) == Transient)
  }

  ghost predicate Orderly(p: Pool, h: nat, out: Verdicts) {
    LaneOk(p.general) && DistinctSeq(Snapshot(p)) && NoFault(Snapshot(p), h, out)
  }

  // The window of height h reaches the digest where it stands in this very pool.
  ghost predicate Reached(p: Pool, h: nat, d: Digest) {
    exists i :: 0 <= i < |Snapshot(p)| && Snapshot(p)[i] == d && Examined(|Snapshot(p)|, h, i)
  }

  // How often the window reached d in the first k pools of a run.
  ghost function Reaches(run: seq<Pool>, h: nat, d: Digest, k: nat): nat
    requires k <= |run|
    decreases |run|, k
  {
    if k == 0 then 0 else Reaches(run, h, d, k - 1) + (if Reached(run[k - 1], h + k - 1, d) then 1 else 0)
  }

  // Admission of a newcomer displaces the entry: the lane is full and the entry is its
  // oldest struck one.
  ghost predicate DisplacedIn(g: seq<Entry>, ops: seq<Operation>, e: Entry) {
    exists m :: 0 <= m < |ops| && DisplacedBy(ApplyAll(g, ops[..m]), ops[m], e)
  }

  ghost predicate DisplacedBy(g: seq<Entry>, op: Operation, e: Entry) {
    && op.Submit? && !Holds(g, op.digest) && |g| == GENERAL_MEMPOOL_CAPACITY && e.strikes > 0
    && OldestStruck(g) < |g| && g[OldestStruck(g)] == e
  }

  lemma {:induction false} NoNewcomer(g: seq<Entry>, op: Operation, d: Digest)
    requires Bystander(op, d) && !Holds(g, d)
    ensures !Holds(Apply(g, op), d)
  {
    HoldsEntry(g, d);
    HoldsEntry(Apply(g, op), d);
    OldestStruckExact(g);
    if op.Remove? {
      forall e ensures e in Apply(g, op) ==> e in g {
        SieveMembers(g, (e: Entry) => e.digest !in op.digests, e);
      }
    }
  }

  lemma {:induction false} OpTracks(g: seq<Entry>, op: Operation, e: Entry)
    requires LaneOk(g) && e in g && Bystander(op, e.digest)
    ensures e in Apply(g, op) || (DisplacedBy(g, op, e) && !Holds(Apply(g, op), e.digest))
  {
    OldestStruckExact(g);
    if op.Remove? {
      SieveMembers(g, (x: Entry) => x.digest !in op.digests, e);
    } else {
      AdmitSpares(g, op.digest, e);
      var r := Apply(g, op);
      if e !in r {
        HoldsEntry(r, e.digest);
        forall x | x in r ensures x.digest != e.digest {
          Displacement(g, op.digest, x);
        }
      }
    }
  }

  // After a displacement the lane has the newcomer and the others.
  lemma {:induction false} Displacement(g: seq<Entry>, d: Digest, x: Entry)
    requires LaneOk(g) && |g| == GENERAL_MEMPOOL_CAPACITY && OldestStruck(g) < |g| && !Holds(g, d)
    requires x in Admit(g, d).1
    ensures x == Entry(d, 0) || (x in g && x.digest != g[OldestStruck(g)].digest)
  {
    var k, r := OldestStruck(g), Admit(g, d).1;
    var i :| 0 <= i < |r| && r[i] == x;
    if i < k {
      assert x == g[i];
    } else if i < |g| - 1 {
      assert x == g[i + 1];
    }
  }

  lemma {:induction false} GapGone(g: seq<Entry>, ops: seq<Operation>, d: Digest)
    requires Bystanders(ops, d) && !Holds(g, d)
    ensures !Holds(ApplyAll(g, ops), d)
    decreases |ops|
  {
    if ops != [] {
      GapGone(g, ops[..|ops| - 1], d);
      NoNewcomer(ApplyAll(g, ops[..|ops| - 1]), ops[|ops| - 1], d);
    }
  }

  lemma {:induction false} DisplacedEarlier(g: seq<Entry>, ops: seq<Operation>, op: Operation, e: Entry)
    ensures DisplacedIn(g, ops, e) ==> DisplacedIn(g, ops + [op], e)
    ensures DisplacedBy(ApplyAll(g, ops), op, e) ==> DisplacedIn(g, ops + [op], e)
  {
    var all := ops + [op];
    assert all[..|ops|] == ops && all[|ops|] == op;
    if DisplacedIn(g, ops, e) {
      var m :| 0 <= m < |ops| && DisplacedBy(ApplyAll(g, ops[..m]), ops[m], e);
      assert all[..m] == ops[..m] && all[m] == ops[m];
      assert DisplacedBy(ApplyAll(g, all[..m]), all[m], e);
    }
  }

  // Through a gap an entry stays as it is, or is displaced and does not come back.
  lemma {:induction false} GapTracks(g: seq<Entry>, ops: seq<Operation>, e: Entry)
    requires LaneOk(g) && e in g && Bystanders(ops, e.digest)
    ensures e in ApplyAll(g, ops) || (DisplacedIn(g, ops, e) && !Holds(ApplyAll(g, ops), e.digest))
    decreases |ops|
  {
    if ops != [] {
      var front, op := ops[..|ops| - 1], ops[|ops| - 1];
      assert ops == front + [op];
      GapTracks(g, front, e);
      LaneInvariant(g, front);
      DisplacedEarlier(g, front, op, e);
      if e in ApplyAll(g, front) {
        OpTracks(ApplyAll(g, front), op, e);
      } else {
        NoNewcomer(ApplyAll(g, front), op, e.digest);
      }
    }
  }

  lemma {:induction false} AfterLane(p: Pool, h: nat, out: Verdicts)
    requires LaneOk(p.general)
    ensures LaneOk(After(p, h, out).general)
  {
    var f := Inspect(Snapshot(p), h, Window(|Snapshot(p)|), out);
    var marked := Struck(Cleared(p.general, f.executable), f.transient);
    SieveLane(marked, (e: Entry) => e.strikes < GENERAL_MEMPOOL_MAX_STRIKES);
    SieveLane(Evicted(marked), (e: Entry) => e.digest !in f.rejected);
  }

  lemma {:induction false} BlockGone(p: Pool, h: nat, out: Verdicts, d: Digest)
    requires !Holds(p.general, d)
    ensures !Holds(After(p, h, out).general, d)
  {
    var f := Inspect(Snapshot(p), h, Window(|Snapshot(p)|), out);
    HoldsEntry(After(p, h, out).general, d);
    forall e | e in After(p, h, out).general ensures e.digest != d {
      SettleMembers(p, f, e);
    }
  }

  lemma {:induction false} ReachedAt(p: Pool, h: nat, i: nat)
    requires i < |Snapshot(p)| && DistinctSeq(Snapshot(p))
    ensures Reached(p, h, Snapshot(p)[i]) <==> Examined(|Snapshot(p)|, h, i)
  {
  }

  // One reconciliation for a resident found transient, wherever it stands.
  lemma {:induction false} BlockTracks(p: Pool, h: nat, out: Verdicts, e: Entry)
    requires Orderly(p, h, out) && e in p.general && e.strikes < GENERAL_MEMPOOL_MAX_STRIKES
    requires out(h, e.digest) == Transient
    ensures var s := e.strikes + if Reached(p, h, e.digest) then 1 else 0;
            if s < GENERAL_MEMPOOL_MAX_STRIKES then Entry(e.digest, s) in After(p, h, out).general
            else !Holds(After(p, h, out).general, e.digest)
  {
    var g :| 0 <= g < |p.general| && p.general[g] == e;
    var i := g + |p.responses|;
    assert Snapshot(p)[i] == e.digest;
    ReachedAt(p, h, i);
    OneBlock(p, h, out, i);
  }

  // The resident leaves at block j: evicted there with its eighth strike, or displaced by an
  // admission right after it, once it had a strike.
  ghost predicate LeavesAt(
    run: seq<Pool>, gaps: seq<seq<Operation>>, h: nat, out: Verdicts, d: Digest, strikes: nat, j: nat)
  {
    && j + 1 < |run| && j < |gaps|
    && Entry(d, strikes + Reaches(run, h, d, j)) in run[j].general
    && !Holds(run[j + 1].general, d)
    && var s := strikes + Reaches(run, h, d, j + 1);
       || s == GENERAL_MEMPOOL_MAX_STRIKES
       || DisplacedIn(After(run[j], h + j, out).general, gaps[j], Entry(d, s))
  }

  ghost predicate Tracked(run: seq<Pool>, h: nat, d: Digest, strikes: nat, k: nat)
    requires k < |run|
  {
    Holds(run[k].general, d) ==>
      && strikes + Reaches(run, h, d, k) < GENERAL_MEMPOOL_MAX_STRIKES
      && Entry(d, strikes + Reaches(run, h, d, k)) in run[k].general
  }

  // A reconciliation and the gap after it.
  lemma {:induction false} BlockAndGap(p: Pool, h: nat, out: Verdicts, ops: seq<Operation>, e: Entry)
    requires Orderly(p, h, out) && e in p.general && e.strikes < GENERAL_MEMPOOL_MAX_STRIKES
    requires out(h, e.digest) == Transient && Bystanders(ops, e.digest)
    ensures var s := e.strikes + if Reached(p, h, e.digest) then 1 else 0;
            var lane := ApplyAll(After(p, h, out).general, ops);
            if Entry(e.digest, s) in lane then s < GENERAL_MEMPOOL_MAX_STRIKES
            else
              && !Holds(lane, e.digest)
              && (s == GENERAL_MEMPOOL_MAX_STRIKES || DisplacedIn(After(p, h, out).general, ops, Entry(e.digest, s)))
  {
    var g, s := After(p, h, out).general, e.strikes + if Reached(p, h, e.digest) then 1 else 0;
    BlockTracks(p, h, out, e);
    if s < GENERAL_MEMPOOL_MAX_STRIKES {
      AfterLane(p, h, out);
      GapTracks(g, ops, Entry(e.digest, s));
    } else {
      GapGone(g, ops, e.digest);
      HoldsEntry(ApplyAll(g, ops), e.digest);
    }
  }

  // One block of a moving pool, for a resident that is there.
  lemma {:induction false} BusyResident(
    run: seq<Pool>, gaps: seq<seq<Operation>>, h: nat, out: Verdicts, d: Digest, strikes: nat, k: nat)
    requires IsBusyRun(run, gaps, h, out, d) && k + 1 < |run|
    requires strikes + Reaches(run, h, d, k) < GENERAL_MEMPOOL_MAX_STRIKES
    requires Entry(d, strikes + Reaches(run, h, d, k)) in run[k].general
    ensures var s := strikes + Reaches(run, h, d, k + 1);
            || (s < GENERAL_MEMPOOL_MAX_STRIKES && Entry(d, s) in run[k + 1].general)
            || LeavesAt(run, gaps, h, out, d, strikes, k)
  {
    assert GapAt(run, gaps, h, out, k) && Bystanders(gaps[k], d) && Orderly(run[k], h + k, out);
    BlockAndGap(run[k], h + k, out, gaps[k], Entry(d, strikes + Reaches(run, h, d, k)));
  }

  // One block of a moving pool.
  lemma {:induction false} BusyStep(
    run: seq<Pool>, gaps: seq<seq<Operation>>, h: nat, out: Verdicts, d: Digest, strikes: nat, k: nat)
    requires IsBusyRun(run, gaps, h, out, d) && k + 1 < |run| && Tracked(run, h, d, strikes, k)
    ensures Tracked(run, h, d, strikes, k + 1)
    ensures !Holds(run[k + 1].general, d) <==>
              !Holds(run[k].general, d) || LeavesAt(run, gaps, h, out, d, strikes, k)
  {
    HoldsEntry(run[k + 1].general, d);
    if Holds(run[k].general, d) {
      BusyResident(run, gaps, h, out, d, strikes, k);
    } else {
      assert GapAt(run, gaps, h, out, k) && Bystanders(gaps[k], d);
      BlockGone(run[k], h + k, out, d);
      GapGone(After(run[k], h + k, out).general, gaps[k], d);
    }
  }

  // In any pool, however its size and order move: while the resident is there it carries one
  // strike for each time the window reached it, and it is gone exactly if at some block
  // before that count reached eight or an admission displaced it once struck.
  lemma {:induction false} BusyExact(
    run: seq<Pool>, gaps: seq<seq<Operation>>, h: nat, out: Verdicts, d: Digest, strikes: nat, k: nat)
    requires IsBusyRun(run, gaps, h, out, d) && k < |run|
    requires Entry(d, strikes) in run[0].general && strikes < GENERAL_MEMPOOL_MAX_STRIKES
    ensures Tracked(run, h, d, strikes, k)
    ensures !Holds(run[k].general, d) <==> exists j :: 0 <= j < k && LeavesAt(run, gaps, h, out, d, strikes, j)
  {
    if k == 0 {
      HoldsEntry(run[0].general, d);
    } else {
      BusyExact(run, gaps, h, out, d, strikes, k - 1);
      BusyStep(run, gaps, h, out, d, strikes, k - 1);
    }
  }

  // In a kept pool these are the visits that the rotation counts.
  lemma {:induction false} KeptReaches(run: seq<Pool>, h: nat, i: nat, k: nat)
    requires k < |run| && KeptThrough(run, k) && i < |Snapshot(run[0])| && DistinctSeq(Snapshot(run[0]))
    ensures Reaches(run, h, Snapshot(run[0])[i], k) == Visits(|Snapshot(run[0])|, h, i, k)
  {
    if k > 0 {
      KeptReaches(run, h, i, k - 1);
      assert SameResidents(run[k - 1], run[0]);
      ReachedAt(run[k - 1], h + k - 1, i);
    }
  }

  lemma {:induction false} ReachesGrow(run: seq<Pool>, h: nat, d: Digest, j: nat, k: nat)
    requires j <= k <= |run|
    ensures Reaches(run, h, d, j) <= Reaches(run, h, d, k)
  {
    if j < k {
      ReachesGrow(run, h, d, j, k - 1);
    }
  }

  // So a resident the window never reaches is never struck and never leaves.
  lemma {:induction false} NeverReached(
    run: seq<Pool>, gaps: seq<seq<Operation>>, h: nat, out: Verdicts, d: Digest, k: nat)
    requires IsBusyRun(run, gaps, h, out, d) && k < |run| && Entry(d, 0) in run[0].general
    requires Reaches(run, h, d, k) == 0
    ensures Entry(d, 0) in run[k].general
  {
    BusyExact(run, gaps, h, out, d, 0, k);
    if !Holds(run[k].general, d) {
      var j :| 0 <= j < k && LeavesAt(run, gaps, h, out, d, 0, j);
      ReachesGrow(run, h, d, j + 1, k);
    }
  }

  // ---------- Any interleaving of the sections ----------

  // Operations that neither submit, clear nor remove d. They may strike it, evict orphans and
  // admit others, in any order: the sections of reconciliations with submissions between.
  ghost predicate Spectator(op: Operation, d: Digest) {
    && op != Submit(d)
    && (op.ClearAll? || op.Remove? ==> d !in op.digests)
  }

  ghost predicate Spectators(ops: seq<Operation>, d: Digest) {
    forall i :: 0 <= i < |ops| ==> Spectator(ops[i], d)
  }

  function StrikesOn(ops: seq<Operation>, d: Digest): nat {
    if ops == [] then 0
    else
      var op := ops[|ops| - 1];
      StrikesOn(ops[..|ops| - 1], d) + (if op.StrikeAll? && d in op.digests then 1 else 0)
  }

  // The entry d has after these operations, if it is still there.
  function Carried(d: Digest, strikes: nat, ops: seq<Operation>): Entry {
    Entry(d, Min(strikes + StrikesOn(ops, d), U32_MAX))
  }

  // Operation m takes d out of the lane: an eviction once it has eight strikes, or an
  // admission that displaces it once it has one.
  ghost predicate TakenOut(g: seq<Entry>, ops: seq<Operation>, d: Digest, strikes: nat, m: nat) {
    && m < |ops|
    && var lane, e := ApplyAll(g, ops[..m]), Carried(d, strikes, ops[..m]);
       && e in lane
       && ((ops[m].EvictOrphans? && e.strikes >= GENERAL_MEMPOOL_MAX_STRIKES) || DisplacedBy(lane, ops[m], e))
  }

  ghost predicate EverTakenOut(g: seq<Entry>, ops: seq<Operation>, d: Digest, strikes: nat) {
    exists m :: 0 <= m < |ops| && TakenOut(g, ops, d, strikes, m)
  }

  lemma {:induction false} StruckMembers(g: seq<Entry>, op: Operation, e: Entry)
    requires LaneOk(g) && e in g && Spectator(op, e.digest) && (op.StrikeAll? || op.ClearAll?)
    ensures (if op.StrikeAll? && e.digest in op.digests then Strike(e) else e) in Apply(g, op)
  {
    var i :| 0 <= i < |g| && g[i] == e;
    assert Apply(g, op)[i] in Apply(g, op);
  }

  // Digests never appear by themselves.
  lemma {:induction false} DigestsFrom(g: seq<Entry>, op: Operation, d: Digest)
    requires Holds(Apply(g, op), d) && op != Submit(d)
    ensures Holds(g, d)
  {
    var r := Apply(g, op);
    var i :| 0 <= i < |r| && r[i].digest == d;
    OldestStruckExact(g);
    HoldsEntry(g, d);
    match op
    case EvictOrphans => SieveMembers(g, (e: Entry) => e.strikes < GENERAL_MEMPOOL_MAX_STRIKES, r[i]);
    case Remove(ds) => SieveMembers(g, (e: Entry) => e.digest !in ds, r[i]);
    case Submit(x) =>
    case StrikeAll(ds) => assert g[i] in g;
    case ClearAll(ds) => assert g[i] in g;
  }

  // An entry that leaves takes its digest with it.
  lemma {:induction false} OneEntryEach(g: seq<Entry>, e: Entry, x: Entry)
    requires Distinct(g) && e in g && x in g && x.digest == e.digest
    ensures x == e
  {
  }

  lemma {:induction false} EvictExact(g: seq<Entry>, e: Entry)
    requires LaneOk(g) && e in g
    ensures e in Evicted(g) <==> e.strikes < GENERAL_MEMPOOL_MAX_STRIKES
    ensures Holds(Evicted(g), e.digest) ==> e in Evicted(g)
  {
    var keep := (x: Entry) => x.strikes < GENERAL_MEMPOOL_MAX_STRIKES;
    SieveMembers(g, keep, e);
    if Holds(Evicted(g), e.digest) {
      HoldsEntry(Evicted(g), e.digest);
      var x :| x in Evicted(g) && x.digest == e.digest;
      SieveMembers(g, keep, x);
      OneEntryEach(g, e, x);
    }
  }

  // One operation: the entry stays, with one more strike if it is struck, or is taken out.
  lemma {:induction false} OpExact(g: seq<Entry>, op: Operation, e: Entry)
    requires LaneOk(g) && e in g && e.strikes <= U32_MAX && Spectator(op, e.digest)
    ensures var out := (op.EvictOrphans? && e.strikes >= GENERAL_MEMPOOL_MAX_STRIKES) || DisplacedBy(g, op, e);
            if out then !Holds(Apply(g, op), e.digest)
            else (if op.StrikeAll? && e.digest in op.digests then Strike(e) else e) in Apply(g, op)
  {
    match op
    case EvictOrphans => EvictExact(g, e);
    case StrikeAll(ds) => StruckMembers(g, op, e);
    case ClearAll(ds) => StruckMembers(g, op, e);
    case Remove(ds) => OpTracks(g, op, e);
    case Submit(x) => SubmitExact(g, x, e);
  }

  lemma {:induction false} SubmitExact(g: seq<Entry>, x: Digest, e: Entry)
    requires LaneOk(g) && e in g && x != e.digest
    ensures if DisplacedBy(g, Submit(x), e) then !Holds(Apply(g, Submit(x)), e.digest)
            else e in Apply(g, Submit(x))
  {
    OpTracks(g, Submit(x), e);
    OldestStruckExact(g);
    if DisplacedBy(g, Submit(x), e) && e in Admit(g, x).1 {
      Displacement(g, x, e);
    }
  }

  // In every interleaving of submissions, removals and reconciliation sections: while d is
  // in the lane it carries one strike for each section that struck it, and it is gone exactly
  // if one of the operations took it out.
  lemma {:induction false} OpsExact(g: seq<Entry>, ops: seq<Operation>, d: Digest, strikes: nat)
    requires LaneOk(g) && Entry(d, strikes) in g && strikes <= U32_MAX && Spectators(ops, d)
    ensures Holds(ApplyAll(g, ops), d) ==> Carried(d, strikes, ops) in ApplyAll(g, ops)
    ensures !Holds(ApplyAll(g, ops), d) <==> EverTakenOut(g, ops, d, strikes)
    decreases |ops|
  {
    if ops == [] {
      HoldsEntry(g, d);
    } else {
      var n := |ops| - 1;
      OpsExact(g, ops[..n], d, strikes);
      LaneInvariant(g, ops[..n]);
      OpsStep(g, ops, d, strikes);
      TakenEarlier(g, ops, d, strikes);
    }
  }

  lemma {:induction false} OpsStep(g: seq<Entry>, ops: seq<Operation>, d: Digest, strikes: nat)
    requires ops != [] && Spectators(ops, d) && LaneOk(ApplyAll(g, ops[..|ops| - 1]))
    requires var lane := ApplyAll(g, ops[..|ops| - 1]);
             Holds(lane, d) ==> Carried(d, strikes, ops[..|ops| - 1]) in lane
    ensures Holds(ApplyAll(g, ops), d) ==> Carried(d, strikes, ops) in ApplyAll(g, ops)
    ensures !Holds(ApplyAll(g, ops), d) <==>
              !Holds(ApplyAll(g, ops[..|ops| - 1]), d) || TakenOut(g, ops, d, strikes, |ops| - 1)
  {
    var n := |ops| - 1;
    var lane, e := ApplyAll(g, ops[..n]), Carried(d, strikes, ops[..n]);
    HoldsEntry(ApplyAll(g, ops), d);
    HoldsEntry(lane, d);
    if Holds(lane, d) {
      OpExact(lane, ops[n], e);
    } else if Holds(ApplyAll(g, ops), d) {
      DigestsFrom(lane, ops[n], d);
    }
  }

  lemma {:induction false} TakenEarlier(g: seq<Entry>, ops: seq<Operation>, d: Digest, strikes: nat)
    requires ops != []
    ensures EverTakenOut(g, ops, d, strikes) <==>
              TakenOut(g, ops, d, strikes, |ops| - 1) || EverTakenOut(g, ops[..|ops| - 1], d, strikes)
  {
    var front := ops[..|ops| - 1];
    forall m | 0 <= m < |front| ensures TakenOut(g, ops, d, strikes, m) <==> TakenOut(g, front, d, strikes, m) {
      assert ops[..m] == front[..m] && ops[m] == front[m];
    }
  }

  // ---------- A resident that is never examined ----------

  // A lane that has 120 residents while the height is 1 to 88 past a multiple of 120, and
  // 119 otherwise.
  function TidalSize(r: nat): nat {
    if 1 <= r <= 88 then GENERAL_MEMPOOL_CAPACITY else GENERAL_MEMPOOL_CAPACITY - 1
  }

  // The window of such a lane misses its oldest resident for 56 rotations in a row.
  lemma {:induction false} TideMisses(a: nat, r: nat)
    requires 31 <= a <= 86 && r < 120
    ensures !Examined(TidalSize(r), 120 * a + r, 0)
  {
    var h, n := 120 * a + r, TidalSize(r);
    assert h == h / n * n + h % n;
    if n == 120 {
      ModUnique(h / n, a, r, h % n, n);
    } else if a + r < 119 {
      ModUnique(h / n, a, a + r, h % n, n);
    } else {
      ModUnique(h / n, a + 1, a + r - 119, h % n, n);
    }
  }

  const TIDE_START: nat := 120 * 31
  const TIDE_BLOCKS: nat := 120 * 56

  function Lane(n: nat): seq<Entry> {
    seq(n, i requires 0 <= i < n => Entry(i, 0))
  }

  // Only the oldest resident is transient; all the others execute.
  function TideVerdict(h: nat, d: Digest): Verdict {
    if d == 0 then Transient else Executable
  }

  ghost function TidalPool(j: nat): Pool {
    Pool([], Lane(TidalSize(j % 120)))
  }

  // A newcomer joins as the tide rises and is included in a block as it falls.
  ghost function TidalGap(j: nat): seq<Operation> {
    var now, later := TidalSize(j % 120), TidalSize((j + 1) % 120);
    if now < later then [Submit(now)] else if now > later then [Remove({later})] else []
  }

  ghost function TidalRun(): seq<Pool> {
    seq(TIDE_BLOCKS, j requires 0 <= j < TIDE_BLOCKS => TidalPool(j))
  }

  ghost function TidalGaps(): seq<seq<Operation>> {
    seq(TIDE_BLOCKS - 1, j requires 0 <= j < TIDE_BLOCKS - 1 => TidalGap(j))
  }

  lemma {:induction false} LaneOrderly(n: nat, h: nat)
    requires n <= GENERAL_MEMPOOL_CAPACITY
    ensures Orderly(Pool([], Lane(n)), h, TideVerdict)
    ensures Snapshot(Pool([], Lane(n))) == seq(n, i requires 0 <= i < n => i)
  {
  }

  lemma {:induction false} LaneKept(n: nat, h: nat)
    requires 0 < n <= GENERAL_MEMPOOL_CAPACITY && !Examined(n, h, 0)
    ensures After(Pool([], Lane(n)), h, TideVerdict).general == Lane(n)
  {
    var p := Pool([], Lane(n));
    var f := Inspect(Snapshot(p), h, Window(n), TideVerdict);
    LaneOrderly(n, h);
    var marked := Struck(Cleared(p.general, f.executable), f.transient);
    forall i | 0 <= i < n ensures marked[i] == Entry(i, 0) && i !in f.rejected {
      InspectExact(Snapshot(p), h, Window(n), TideVerdict, i);
    }
    assert marked == Lane(n);
    SieveAll(marked, (e: Entry) => e.strikes < GENERAL_MEMPOOL_MAX_STRIKES);
    SieveAll(marked, (e: Entry) => e.digest !in f.rejected);
  }

  lemma {:induction false} LaneMoves(n: nat)
    requires n < GENERAL_MEMPOOL_CAPACITY
    ensures ApplyAll(Lane(n), [Submit(n)]) == Lane(n + 1)
    ensures ApplyAll(Lane(n + 1), [Remove({n})]) == Lane(n)
  {
    assert [Submit(n)][..0] == [] && [Remove({n})][..0] == [];
    assert Lane(n + 1) == Lane(n) + [Entry(n, 0)];
    WithoutLast(Lane(n), {n}, Entry(n, 0));
  }

  lemma {:induction false} WithoutLast(g: seq<Entry>, ds: set<Digest>, e: Entry)
    requires e.digest in ds && forall i :: 0 <= i < |g| ==> g[i].digest !in ds
    ensures Without(g + [e], ds) == g
  {
    assert (g + [e])[..|g|] == g;
    SieveAll(g, (x: Entry) => x.digest !in ds);
  }

  lemma {:induction false} TidalStep(j: nat)
    requires j < TIDE_BLOCKS
    ensures !Examined(TidalSize(j % 120), TIDE_START + j, 0)
    ensures TidalPool(j + 1).general == ApplyAll(After(TidalPool(j), TIDE_START + j, TideVerdict).general, TidalGap(j))
  {
    TideMisses(31 + j / 120, j % 120);
    LaneKept(TidalSize(j % 120), TIDE_START + j);
    LaneMoves(GENERAL_MEMPOOL_CAPACITY - 1);
  }

  lemma {:induction false} TidalAt(j: nat)
    requires j < TIDE_BLOCKS
    ensures Orderly(TidalPool(j), TIDE_START + j, TideVerdict)
    ensures Entry(0, 0) in TidalPool(j).general && !Reached(TidalPool(j), TIDE_START + j, 0)
    ensures Bystanders(TidalGap(j), 0)
  {
    LaneOrderly(TidalSize(j % 120), TIDE_START + j);
    TidalStep(j);
    assert TidalPool(j).general[0] == Entry(0, 0);
    ReachedAt(TidalPool(j), TIDE_START + j, 0);
  }

  lemma {:induction false} TidalGapAt(j: nat)
    requires j < TIDE_BLOCKS - 1
    ensures GapAt(TidalRun(), TidalGaps(), TIDE_START, TideVerdict, j) && Bystanders(TidalGaps()[j], 0)
  {
    TidalAt(j);
    TidalStep(j);
  }

  lemma {:induction false} TidalRunBusy()
    ensures IsBusyRun(TidalRun(), TidalGaps(), TIDE_START, TideVerdict, 0)
  {
    var run, gaps := TidalRun(), TidalGaps();
    assert forall j :: 0 <= j < |run| ==> Orderly(run[j], TIDE_START + j, TideVerdict) by {
      forall j | 0 <= j < |run| ensures Orderly(run[j], TIDE_START + j, TideVerdict) {
        TidalAt(j);
      }
    }
    assert forall j :: 0 <= j < |run| - 1 ==>
             GapAt(run, gaps, TIDE_START, TideVerdict, j) && Bystanders(gaps[j], 0) by {
      forall j | 0 <= j < |run| - 1
        ensures GapAt(run, gaps, TIDE_START, TideVerdict, j) && Bystanders(gaps[j], 0)
      {
        TidalGapAt(j);
      }
    }
  }

  // The strike bound is no bound on a resident's life: here is a run of 6720 blocks in which
  // a resident that would fail every examination is never examined, and keeps its place
  // without a strike.
  lemma {:induction false} NeverExamined()
    ensures |TidalRun()| == TIDE_BLOCKS == 6720
    ensures IsBusyRun(TidalRun(), TidalGaps(), TIDE_START, TideVerdict, 0)
    ensures forall k :: 0 <= k < |TidalRun()| ==>
              Entry(0, 0) in TidalRun()[k].general && !Reached(TidalRun()[k], TIDE_START + k, 0)
  {
    TidalRunBusy();
    forall k | 0 <= k < |TidalRun()|
      ensures Entry(0, 0) in TidalRun()[k].general && !Reached(TidalRun()[k], TIDE_START + k, 0)
    {
      TidalAt(k);
    }
  }

  // ---------- The pool in place ----------

  class MempoolState {
    var responses: seq<Digest>
    var general: seq<Entry>

    ghost function View(): Pool
      reads this
    {
      Pool(responses, general)
    }

    constructor ()
      ensures View() == Pool([], []) && LaneOk(general)
    {
      responses, general := [], [];
    }

    method AdmitGeneral(d: Digest) returns (r: SubmitOutcome)
      requires LaneOk(general)
      modifies this`general
      ensures (r, general) == Admit(old(general), d) && LaneOk(general)
    {
      AdmitOutcome(general, d);
      for i := 0 to |general|
        invariant general == old(general) && forall j :: 0 <= j < i ==> general[j].digest != d
      {
        if general[i].digest == d {
          return Duplicate;
        }
      }
      if |general| >= GENERAL_MEMPOOL_CAPACITY {
        var index := 0;
        OldestStruckExact(general);
        while index < |general| && general[index].strikes == 0
          invariant index <= OldestStruck(general)
        {
          index := index + 1;
        }
        if index == |general| {
          return Full;
        }
        general := general[..index] + general[index + 1..];
      }
      general := general + [Entry(d, 0)];
      return Enqueued;
    }

    method StrikeResidents(ds: set<Digest>)
      modifies this`general
      ensures general == Struck(old(general), ds)
    {
      for i := 0 to |general|
        invariant |general| == |old(general)|
        invariant general[..i] == Struck(old(general), ds)[..i] && general[i..] == old(general)[i..]
      {
        assert general[i] == general[i..][0] == old(general)[i];
        if general[i].digest in ds {
          general := general[i := Strike(general[i])];
        }
      }
    }

    method ClearStrikes(ds: set<Digest>)
      modifies this`general
      ensures general == Cleared(old(general), ds)
    {
      for i := 0 to |general|
        invariant |general| == |old(general)|
        invariant general[..i] == Cleared(old(general), ds)[..i] && general[i..] == old(general)[i..]
      {
        assert general[i] == general[i..][0] == old(general)[i];
        if general[i].digest in ds {
          general := general[i := general[i].(strikes := 0)];
        }
      }
    }

    method EvictResidents()
      modifies this`general
      ensures general == Evicted(old(general))
    {
      var kept: seq<Entry> := [];
      for i := 0 to |general|
        invariant general == old(general) && kept == Evicted(general[..i])
      {
        assert general[..i + 1][..i] == general[..i];
        if general[i].strikes < GENERAL_MEMPOOL_MAX_STRIKES {
          kept := kept + [general[i]];
        }
      }
      assert general[..|general|] == general;
      general := kept;
    }

    method RemoveDigests(ds: set<Digest>)
      modifies this
      ensures View() == Pool(DigestsWithout(old(responses), ds), Without(old(general), ds))
    {
      var kept: seq<Entry> := [];
      for i := 0 to |general|
        invariant View() == old(View()) && kept == Without(general[..i], ds)
      {
        assert general[..i + 1][..i] == general[..i];
        if general[i].digest !in ds {
          kept := kept + [general[i]];
        }
      }
      assert general[..|general|] == general;
      general := kept;
      var left: seq<Digest> := [];
      for i := 0 to |responses|
        invariant general == Without(old(general), ds) && responses == old(responses)
        invariant left == DigestsWithout(responses[..i], ds)
      {
        assert responses[..i + 1][..i] == responses[..i];
        if responses[i] !in ds {
          left := left + [responses[i]];
        }
      }
      assert responses[..|responses|] == responses;
      responses := left;
    }

    // Re-executes the window of this height and settles what it found.
    method Reconcile(h: nat, out: Verdicts)
      modifies this
      ensures View() == After(old(View()), h, out)
    {
      var candidates := responses + seq(|general|, i requires 0 <= i < |general| reads this => general[i].digest);
      assert candidates == Snapshot(View());
      var examined := Window(|candidates|);
      var start := if candidates == [] then 0 else h % |candidates|;
      var f := Findings({}, {}, {}, false);
      var offset := 0;
      while offset < examined && !f.faulted
        invariant offset <= examined && View() == old(View())
        invariant f == Inspect(candidates, h, offset, out)
      {
        var d := candidates[(start + offset) % |candidates|];
        f := Note(f, d, out(h, d));
        offset := offset + 1;
      }
      FaultStops(candidates, h, offset, examined, out);
      ClearStrikes(f.executable);
      StrikeResidents(f.transient);
      EvictResidents();
      RemoveDigests(f.rejected);
    }
  }

  lemma {:induction false} FaultStops(snap: seq<Digest>, h: nat, k: nat, m: nat, out: Verdicts)
    requires k <= m <= |snap| && (Inspect(snap, h, k, out).faulted || k == m)
    ensures Inspect(snap, h, m, out) == Inspect(snap, h, k, out)
  {
    if k < m {
      FaultStops(snap, h, k, m - 1, out);
    }
  }
}
