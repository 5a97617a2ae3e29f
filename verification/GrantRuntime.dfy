/**
 The grant runtime: jobs admitted against a memory budget, a streamed body that is
 swapped for the signed transcript at completion, and readers that follow it. The
 shared state is a machine whose steps are the sections the code runs under its locks.
 Source: crates/authority/src/grant_service.rs and grant_service/cache.rs.
 */
module GrantRuntime {
  import opened Wrappers

  const MAX_RAM: nat := 64 * 1024 * 1024
  const MAX_LIVE: nat := 256
  const USIZE_MAX: nat := 0xFFFF_FFFF_FFFF_FFFF

  type JobId = nat
  type ReaderId = nat

  datatype Event = Event(terminal: bool, payload: nat, tag: nat)

  function Sat(n: nat): nat {
    if n > USIZE_MAX then USIZE_MAX else n
  }

  function EventRam(e: Event): nat {
    Sat(Sat(e.payload * 2) + 1024)
  }

  function TranscriptRam(events: seq<Event>): nat {
    if events == [] then 0 else Sat(TranscriptRam(events[..|events| - 1]) + EventRam(events[|events| - 1]))
  }

  // ---------- The body-free commitment to streamed events ----------

  // A collision-free hash chain over the events pushed so far.
  datatype Chain = Seed | Link(previous: Chain, event: Event)
  datatype Prefix = Prefix(count: nat, digest: Chain)

  function Pushed(p: Prefix, e: Event): Prefix {
    Prefix(p.count + 1, Link(p.digest, e))
  }

  function Commit(events: seq<Event>): Prefix {
    if events == [] then Prefix(0, Seed) else Pushed(Commit(events[..|events| - 1]), events[|events| - 1])
  }

  predicate Matches(p: Prefix, events: seq<Event>) {
    p.count <= |events| && Commit(events[..p.count]).digest == p.digest
  }

  lemma {:induction false} CommitInjective(a: seq<Event>, b: seq<Event>)
    requires Commit(a).digest == Commit(b).digest
    ensures a == b
  {
    if a != [] && b != [] {
      CommitInjective(a[..|a| - 1], b[..|b| - 1]);
      assert a == a[..|a| - 1] + [a[|a| - 1]] && b == b[..|b| - 1] + [b[|b| - 1]];
    }
  }

  lemma {:induction false} CommitCount(events: seq<Event>)
    ensures Commit(events).count == |events|
  {
    if events != [] {
      CommitCount(events[..|events| - 1]);
    }
  }

  // The commitment is exact: it matches a transcript if and only if the streamed events
  // are the start of that transcript.
  lemma {:induction false} MatchesExact(streamed: seq<Event>, events: seq<Event>)
    ensures Matches(Commit(streamed), events) <==> streamed <= events
  {
    CommitCount(streamed);
    if Matches(Commit(streamed), events) {
      CommitInjective(events[..|streamed|], streamed);
    }
    if streamed <= events {
      assert events[..|streamed|] == streamed;
    }
  }

  method PrefixMatches(p: Prefix, events: seq<Event>) returns (r: bool)
    ensures r == Matches(p, events)
  {
    if p.count > |events| {
      return false;
    }
    var head := events[..p.count];
    var prefix := Prefix(0, Seed);
    assert head[..0] == [];
    for i := 0 to |head|
      invariant prefix == Commit(head[..i])
    {
      assert head[..i + 1][..i] == head[..i];
      prefix := Pushed(prefix, head[i]);
    }
    assert head[..|head|] == head;
    return prefix.digest == p.digest;
  }

  // ---------- Jobs ----------

  datatype Body = Body(retained: bool, events: seq<Event>, bytes: nat)

  datatype Phase = Queued | Running | Completing | Finished(transcript: seq<Event>) | Refused

  datatype Job = Job(reserved: nat, spool: nat, maxFrame: nat, phase: Phase, body: Body, prefix: Prefix)

  const DISCARDED := Body(false, [], 0)

  predicate Active(p: Phase) {
    p.Queued? || p.Running? || p.Completing?
  }

  function Ram(j: Job): nat {
    if Active(j.phase) then j.reserved else j.body.bytes
  }

  function NewJob(heap: nat, content: nat, spool: nat, maxFrame: nat): Job {
    Job(Sat(Sat(heap + content) + spool), spool, maxFrame, Queued, Body(true, [], 0), Prefix(0, Seed))
  }

  // ---------- Sums over the live jobs ----------

  ghost function TotalRam(live: map<JobId, Job>): nat {
    if live == map[] then 0
    else
      var id :| id in live;
      Ram(live[id]) + TotalRam(live - {id})
  }

  lemma {:induction false} TotalRamWithout(live: map<JobId, Job>, id: JobId)
    requires id in live
    ensures TotalRam(live) == Ram(live[id]) + TotalRam(live - {id})
    decreases |live|
  {
    var pick :| pick in live && TotalRam(live) == Ram(live[pick]) + TotalRam(live - {pick});
    if pick != id {
      assert |live - {pick}| < |live|;
      TotalRamWithout(live - {pick}, id);
      TotalRamWithout(live - {id}, pick);
      assert live - {pick} - {id} == live - {id} - {pick};
    }
  }

  lemma {:induction false} TotalRamSet(live: map<JobId, Job>, id: JobId, j: Job)
    ensures TotalRam(live[id := j]) == Ram(j) + TotalRam(live - {id})
  {
    TotalRamWithout(live[id := j], id);
    assert live[id := j] - {id} == live - {id};
  }

  lemma {:induction false} TotalRamUpdate(live: map<JobId, Job>, id: JobId, j: Job)
    requires id in live && Ram(j) <= Ram(live[id])
    ensures TotalRam(live[id := j]) <= TotalRam(live)
    ensures |live[id := j]| == |live|
  {
    TotalRamSet(live, id, j);
    TotalRamWithout(live, id);
    assert live[id := j].Keys == live.Keys;
  }

  // Pointwise smaller jobs over fewer ids take less.
  lemma {:induction false} TotalRamMonotone(a: map<JobId, Job>, b: map<JobId, Job>)
    requires forall id :: id in a ==> id in b && Ram(a[id]) <= Ram(b[id])
    ensures TotalRam(a) <= TotalRam(b) && |a| <= |b|
    decreases |a|
  {
    if a != map[] {
      var id :| id in a;
      TotalRamWithout(a, id);
      TotalRamWithout(b, id);
      assert |a - {id}| == |a| - 1 && |b - {id}| == |b| - 1;
      TotalRamMonotone(a - {id}, b - {id});
    }
  }

  // The admission test: a saturating fold over the live jobs, started at the reservation.
  method OverBudget(live: map<JobId, Job>, reserve: nat) returns (over: bool)
    ensures over <==> |live| >= MAX_LIVE || reserve + TotalRam(live) > MAX_RAM
  {
    if |live| >= MAX_LIVE {
      return true;
    }
    var left := live;
    var n := Sat(reserve);
    ghost var seen: nat := 0;
    while left != map[]
      invariant reserve + TotalRam(live) == reserve + seen + TotalRam(left)
      invariant n == Sat(reserve + seen)
      decreases |left|
    {
      var id :| id in left;
      TotalRamWithout(left, id);
      n := Sat(n + Ram(left[id]));
      seen := seen + Ram(left[id]);
      assert |left - {id}| < |left|;
      left := left - {id};
    }
    return n > MAX_RAM;
  }

  // ---------- The machine ----------

  // Who holds the writer lock, across the awaits of accept and finish.
  datatype Writer = Free | Accepting(id: JobId, job: Job) | Finishing(id: JobId, completion: Option<seq<Event>>)

  datatype ReaderStatus = Open | Closed | Terminated(transcript: seq<Event>)
  datatype Reader = Reader(job: JobId, position: nat, received: seq<Event>, status: ReaderStatus)

  datatype State = State(
    live: map<JobId, Job>,
    accepted: set<JobId>,
    signed: map<JobId, seq<Event>>,
    writer: Writer,
    readers: map<ReaderId, Reader>)

  const START := State(map[], {}, map[], Free, map[])

  datatype Action =
    | Check(id: JobId, job: Job, expired: set<JobId>)
    | Decline
    | Insert
    | Dispatch(id: JobId)
    | Progress(id: JobId, event: Event, late: bool)
    | Cancel(id: JobId)
    | Seal(id: JobId, output: Option<seq<Event>>, verified: bool)
    | Install
    | Abort
    | Fail(id: JobId)
    | Subscribe(reader: ReaderId, id: JobId)
    | Read(reader: ReaderId, refused: bool)

  // Retention: only finished jobs go, when their delivery lapsed or their body is gone.
  function Retained(live: map<JobId, Job>, expired: set<JobId>): map<JobId, Job> {
    map id | id in live && (Active(live[id].phase) || (id !in expired && live[id].body.retained)) :: live[id]
  }

  ghost predicate Admits(live: map<JobId, Job>, reserve: nat) {
    !(|live| >= MAX_LIVE || reserve + TotalRam(live) > MAX_RAM)
  }

  ghost function CheckStep(s: State, id: JobId, job: Job, expired: set<JobId>): State {
    if !s.writer.Free? || id in s.accepted then s
    else
      var live := Retained(s.live, expired);
      s.(live := live, writer := if Admits(live, job.reserved) then Accepting(id, job) else Free)
  }

  function InsertStep(s: State): State {
    if !s.writer.Accepting? then s
    else s.(live := s.live[s.writer.id := s.writer.job], accepted := s.accepted + {s.writer.id}, writer := Free)
  }

  function DispatchStep(s: State, id: JobId): State {
    if !s.writer.Free? || id !in s.live || !s.live[id].phase.Queued? then s
    else s.(live := s.live[id := s.live[id].(phase := Running)])
  }

  // Streaming one event. Terminal and failure events are never streamed.
  function ProgressStep(s: State, id: JobId, e: Event, late: bool): State {
    if e.terminal || id !in s.live || !s.live[id].phase.Running? then s
    else
      var j := s.live[id];
      if late then s.(live := s.live[id := j.(body := DISCARDED)])
      else if !j.body.retained then s
      else
        var next := Sat(j.body.bytes + EventRam(e));
        if next > j.spool || EventRam(e) > j.maxFrame then s
        else
          var body := j.body.(bytes := next, events := j.body.events + [e]);
          s.(live := s.live[id := j.(body := body, prefix := Pushed(j.prefix, e))])
  }

  function CancelStep(s: State, id: JobId): State {
    if id !in s.live then s else s.(live := s.live[id := s.live[id].(body := DISCARDED)])
  }

  // A verified transcript ends with its one terminal or failure event.
  predicate Closes(events: seq<Event>) {
    && |events| > 0 && events[|events| - 1].terminal
    && forall i :: 0 <= i < |events| - 1 ==> !events[i].terminal
  }

  // Completion seals progress before the durable write. `verified` stands for the checks
  // on signatures, outcome, durable phase and deadline.
  function SealStep(s: State, id: JobId, output: Option<seq<Event>>, verified: bool): State {
    if !s.writer.Free? || id !in s.live || !(s.live[id].phase.Queued? || s.live[id].phase.Running?) then s
    else
      var j := s.live[id];
      var good :=
        && verified && output.Some? && Closes(output.value)
        && Matches(j.prefix, output.value) && TranscriptRam(output.value) <= j.spool;
      s.(live := s.live[id := j.(phase := Completing)], writer := Finishing(id, if good then output else None))
  }

  function InstallStep(s: State): State {
    if !s.writer.Finishing? || s.writer.id !in s.live then s
    else
      var id, j := s.writer.id, s.live[s.writer.id];
      match s.writer.completion
      case Some(events) =>
        var body := if j.body.retained then j.body.(bytes := TranscriptRam(events), events := events) else j.body;
        s.(live := s.live[id := j.(body := body, phase := Finished(events))], signed := s.signed[id := events],
            writer := Free)
      case None => s.(live := s.live[id := j.(body := DISCARDED, phase := Refused)], writer := Free)
  }

  // The durable write failed and the writer lock is released; the job task then drops
  // every body and refuses the job.
  function FailStep(s: State, id: JobId): State {
    if id !in s.live || !Active(s.live[id].phase) || (s.writer.Finishing? && s.writer.id == id) then s
    else s.(live := Discarded(s.live)[id := s.live[id].(body := DISCARDED, phase := Refused)])
  }

  function Discarded(live: map<JobId, Job>): map<JobId, Job> {
    map id | id in live :: live[id].(body := DISCARDED)
  }

  function SubscribeStep(s: State, reader: ReaderId, id: JobId): State {
    if reader in s.readers then s else s.(readers := s.readers[reader := Reader(id, 0, [], Open)])
  }

  // One stream_update and what the stream loop does with it.
  function ReadNext(live: map<JobId, Job>, r: Reader): Reader {
    if r.job !in live || live[r.job].phase.Refused? || !live[r.job].body.retained then r.(status := Closed)
    else
      var j := live[r.job];
      var n := |j.body.events|;
      var end := if j.phase.Finished? && n > 0 then n - 1 else n;
      if r.position > end then r.(status := Closed)
      else if r.position < end then
        r.(position := r.position + 1, received := r.received + [j.body.events[r.position]])
      else if !j.phase.Finished? then r
      else if n == 0 then r.(status := Closed)
      else r.(received := r.received + [j.body.events[n - 1]], status := Terminated(j.phase.transcript))
  }

  function ReadStep(s: State, reader: ReaderId, refused: bool): State {
    if !s.writer.Free? || reader !in s.readers || !s.readers[reader].status.Open? then s
    else if refused then s.(readers := s.readers[reader := s.readers[reader].(status := Closed)])
    else s.(readers := s.readers[reader := ReadNext(s.live, s.readers[reader])])
  }

  ghost function Step(s: State, a: Action): State {
    match a
    case Check(id, job, expired) => CheckStep(s, id, job, expired)
    case Decline => if s.writer.Accepting? then s.(writer := Free) else s
    case Insert => InsertStep(s)
    case Dispatch(id) => DispatchStep(s, id)
    case Progress(id, e, late) => ProgressStep(s, id, e, late)
    case Cancel(id) => CancelStep(s, id)
    case Seal(id, output, verified) => SealStep(s, id, output, verified)
    case Install => InstallStep(s)
    case Abort => if s.writer.Finishing? then s.(writer := Free) else s
    case Fail(id) => FailStep(s, id)
    case Subscribe(reader, id) => SubscribeStep(s, reader, id)
    case Read(reader, refused) => ReadStep(s, reader, refused)
  }

  // A check offers a fresh job whose reservation is that of its inputs.
  ghost predicate Legal(a: Action) {
    a.Check? ==> exists heap, content, spool, maxFrame :: a.job == NewJob(heap, content, spool, maxFrame)
  }

  ghost function Run(s: State, actions: seq<Action>): State {
    if actions == [] then s else Step(Run(s, actions[..|actions| - 1]), actions[|actions| - 1])
  }

  // ---------- What every step keeps ----------

  ghost predicate Streamable(events: seq<Event>) {
    forall i :: 0 <= i < |events| ==> !events[i].terminal
  }

  ghost predicate GoodJob(j: Job) {
    && j.reserved <= MAX_RAM && j.spool <= j.reserved
    && j.body.bytes == TranscriptRam(j.body.events) <= j.spool
    && (!j.body.retained ==> j.body.events == [])
    && (Active(j.phase) && j.body.retained ==> j.prefix == Commit(j.body.events) && Streamable(j.body.events))
    && (j.phase.Finished? && j.body.retained ==> j.body.events == j.phase.transcript && Closes(j.body.events))
  }

  // What the holder of the writer lock may rely on when it comes back from its wait.
  ghost predicate WriterOk(s: State) {
    && (s.writer.Accepting? ==>
          && Admits(s.live, s.writer.job.reserved) && s.writer.id !in s.accepted
          && s.writer.job.phase.Queued? && GoodJob(s.writer.job) && s.writer.job.body.events == [])
    && (s.writer.Finishing? ==>
          && s.writer.id in s.live && s.live[s.writer.id].phase.Completing? && s.writer.id !in s.signed
          && (s.writer.completion.Some? ==> Installable(s.live[s.writer.id], s.writer.completion.value)))
  }

  ghost predicate Installable(j: Job, events: seq<Event>) {
    Closes(events) && Matches(j.prefix, events) && TranscriptRam(events) <= j.spool
  }

  ghost predicate Budget(s: State) {
    |s.live| <= MAX_LIVE && TotalRam(s.live) <= MAX_RAM
  }

  ghost predicate AllGood(live: map<JobId, Job>) {
    forall id :: id in live ==> GoodJob(live[id])
  }

  ghost predicate JobsOk(s: State) {
    && AllGood(s.live)
    && (forall id :: id in s.live && s.live[id].phase.Finished? ==>
        id in s.signed && s.signed[id] == s.live[id].phase.transcript)
    && (forall id :: id in s.live && Active(s.live[id].phase) ==> id !in s.signed)
    && s.live.Keys <= s.accepted && s.signed.Keys <= s.accepted
  }

  // An open reader holds the first `position` events of its job's body, all of them
  // streamable, while that body is retained.
  ghost predicate Following(live: map<JobId, Job>, r: Reader) {
    && |r.received| == r.position && Streamable(r.received)
    && (r.job in live && live[r.job].body.retained ==> r.received <= live[r.job].body.events)
  }

  ghost predicate ReaderOk(s: State, r: Reader) {
    && (r.status.Open? ==> Following(s.live, r) && (r.received != [] ==> r.job in s.accepted))
    && (r.status.Terminated? ==>
          r.job in s.signed && s.signed[r.job] == r.status.transcript && r.received == r.status.transcript)
  }

  ghost predicate ReadersOk(s: State) {
    forall k :: k in s.readers ==> ReaderOk(s, s.readers[k])
  }

  ghost predicate Inv(s: State) {
    Budget(s) && WriterOk(s) && JobsOk(s) && ReadersOk(s)
  }

  // No step takes an event away from a retained body, and a new job starts empty.
  ghost predicate Grows(s: State, t: State, id: JobId) {
    && id in t.live
    && (if id in s.live then
          t.live[id].body.retained ==> s.live[id].body.retained && s.live[id].body.events <= t.live[id].body.events
        else
          id !in s.accepted && t.live[id].body.events == [])
  }

  ghost predicate Continues(s: State, t: State) {
    && (forall id :: id in t.live ==> Grows(s, t, id))
    && s.accepted <= t.accepted
    && (forall id :: id in s.signed ==> id in t.signed && t.signed[id] == s.signed[id])
  }

  lemma {:induction false} ReadersKept(s: State, t: State)
    requires ReadersOk(s) && Continues(s, t) && t.readers == s.readers
    ensures ReadersOk(t)
  {
    forall k | k in t.readers ensures ReaderOk(t, t.readers[k]) {
      var r := s.readers[k];
      assert ReaderOk(s, r);
      if r.status.Open? && r.job in t.live {
        assert Grows(s, t, r.job);
      }
    }
  }

  lemma {:induction false} RamOfStreaming(events: seq<Event>, e: Event)
    ensures TranscriptRam(events + [e]) == Sat(TranscriptRam(events) + EventRam(e))
    ensures Commit(events + [e]) == Pushed(Commit(events), e)
  {
    assert (events + [e])[..|events|] == events;
  }

  // Replacing one job by a good one that takes no more memory.
  ghost predicate Replaces(s: State, t: State, id: JobId, j: Job) {
    && id in s.live && t.live == s.live[id := j]
    && t.accepted == s.accepted && t.readers == s.readers
    && GoodJob(j) && Ram(j) <= Ram(s.live[id]) && (Active(j.phase) ==> Active(s.live[id].phase))
    && Grows(s, t, id)
    && (|| (t.signed == s.signed && (j.phase.Finished? ==> s.live[id].phase == j.phase))
        || (id !in s.signed && j.phase.Finished? && t.signed == s.signed[id := j.phase.transcript]))
  }

  lemma {:induction false} ReplacedJobs(s: State, t: State, id: JobId, j: Job)
    requires JobsOk(s) && Replaces(s, t, id, j)
    ensures JobsOk(t)
  {
  }

  lemma {:induction false} ReplacedReaders(s: State, t: State, id: JobId, j: Job)
    requires ReadersOk(s) && Replaces(s, t, id, j)
    ensures ReadersOk(t)
  {
    forall k | k in t.live ensures Grows(s, t, k) {}
    ReadersKept(s, t);
  }

  lemma {:induction false} JobReplaced(s: State, t: State, id: JobId, j: Job)
    requires Inv(s) && Replaces(s, t, id, j) && WriterOk(t)
    ensures Inv(t)
  {
    ReplacedJobs(s, t, id, j);
    ReplacedReaders(s, t, id, j);
    TotalRamUpdate(s.live, id, j);
  }

  lemma {:induction false} AdmitsLess(live: map<JobId, Job>, id: JobId, j: Job, reserve: nat)
    requires Admits(live, reserve) && id in live && Ram(j) <= Ram(live[id])
    ensures Admits(live[id := j], reserve)
  {
    TotalRamUpdate(live, id, j);
  }

  // ---------- Each step ----------

  lemma {:induction false} NewJobGood(heap: nat, content: nat, spool: nat, maxFrame: nat)
    requires NewJob(heap, content, spool, maxFrame).reserved <= MAX_RAM
    ensures GoodJob(NewJob(heap, content, spool, maxFrame))
  {
  }

  lemma {:induction false} CheckKeeps(s: State, id: JobId, job: Job, expired: set<JobId>)
    requires Inv(s) && Legal(Check(id, job, expired))
    ensures Inv(CheckStep(s, id, job, expired))
  {
    var t := CheckStep(s, id, job, expired);
    if t != s {
      TotalRamMonotone(Retained(s.live, expired), s.live);
      forall k | k in t.live ensures Grows(s, t, k) {}
      ReadersKept(s, t);
      if t.writer.Accepting? {
        var heap, content, spool, maxFrame :| job == NewJob(heap, content, spool, maxFrame);
        NewJobGood(heap, content, spool, maxFrame);
      }
    }
  }

  lemma {:induction false} InsertBudget(live: map<JobId, Job>, id: JobId, job: Job)
    requires id !in live && job.phase.Queued? && Admits(live, job.reserved)
    ensures |live[id := job]| <= MAX_LIVE && TotalRam(live[id := job]) <= MAX_RAM
  {
    TotalRamSet(live, id, job);
    assert live - {id} == live;
    assert live[id := job].Keys == live.Keys + {id};
    assert |live.Keys + {id}| == |live.Keys| + 1;
  }

  lemma {:induction false} InsertJobs(s: State)
    requires JobsOk(s) && WriterOk(s) && s.writer.Accepting?
    ensures JobsOk(InsertStep(s))
  {
  }

  lemma {:induction false} InsertKeeps(s: State)
    requires Inv(s)
    ensures Inv(InsertStep(s))
  {
    if s.writer.Accepting? {
      InsertBudget(s.live, s.writer.id, s.writer.job);
      InsertJobs(s);
      assert ReadersOk(InsertStep(s)) by {
        var t := InsertStep(s);
        forall k | k in t.live ensures Grows(s, t, k) {}
        ReadersKept(s, t);
      }
    }
  }

  lemma {:induction false} DispatchKeeps(s: State, id: JobId)
    requires Inv(s)
    ensures Inv(DispatchStep(s, id))
  {
    var t := DispatchStep(s, id);
    if t != s {
      JobReplaced(s, t, id, s.live[id].(phase := Running));
    }
  }

  lemma {:induction false} ProgressReplaces(s: State, id: JobId, e: Event, late: bool)
    requires AllGood(s.live) && ProgressStep(s, id, e, late) != s
    ensures Replaces(s, ProgressStep(s, id, e, late), id, ProgressStep(s, id, e, late).live[id])
    ensures s.live[id].phase.Running? && ProgressStep(s, id, e, late).live[id].phase.Running?
  {
    assert GoodJob(s.live[id]);
    RamOfStreaming(s.live[id].body.events, e);
  }

  lemma {:induction false} ReplacedWriter(s: State, t: State, id: JobId, j: Job)
    requires WriterOk(s) && Replaces(s, t, id, j) && t.writer == s.writer && t.signed == s.signed
    requires s.live[id].phase == j.phase && s.live[id].spool == j.spool
    requires j.phase.Running? || s.live[id].prefix == j.prefix
    ensures WriterOk(t)
  {
    if s.writer.Accepting? {
      AdmitsLess(s.live, id, j, s.writer.job.reserved);
    }
  }

  lemma {:induction false} ProgressKeeps(s: State, id: JobId, e: Event, late: bool)
    requires Inv(s)
    ensures Inv(ProgressStep(s, id, e, late))
  {
    var t := ProgressStep(s, id, e, late);
    if t != s {
      ProgressReplaces(s, id, e, late);
      ReplacedWriter(s, t, id, t.live[id]);
      JobReplaced(s, t, id, t.live[id]);
    }
  }

  lemma {:induction false} CancelKeeps(s: State, id: JobId)
    requires Inv(s)
    ensures Inv(CancelStep(s, id))
  {
    var t := CancelStep(s, id);
    if id in s.live {
      assert GoodJob(s.live[id]);
      ReplacedWriter(s, t, id, t.live[id]);
      JobReplaced(s, t, id, t.live[id]);
    }
  }

  lemma {:induction false} SealKeeps(s: State, id: JobId, output: Option<seq<Event>>, verified: bool)
    requires Inv(s)
    ensures Inv(SealStep(s, id, output, verified))
  {
    var t := SealStep(s, id, output, verified);
    if t != s {
      JobReplaced(s, t, id, s.live[id].(phase := Completing));
    }
  }

  lemma {:induction false} InstallKeeps(s: State)
    requires Inv(s)
    ensures Inv(InstallStep(s))
  {
    var t := InstallStep(s);
    if s.writer.Finishing? {
      var id := s.writer.id;
      if s.writer.completion.Some? && s.live[id].body.retained {
        MatchesExact(s.live[id].body.events, s.writer.completion.value);
      }
      JobReplaced(s, t, id, t.live[id]);
    }
  }

  lemma {:induction false} FailBudget(s: State, id: JobId)
    requires JobsOk(s)
    ensures TotalRam(FailStep(s, id).live) <= TotalRam(s.live) && |FailStep(s, id).live| <= |s.live|
  {
    TotalRamMonotone(FailStep(s, id).live, s.live);
  }

  lemma {:induction false} FailJobs(s: State, id: JobId)
    requires JobsOk(s)
    ensures JobsOk(FailStep(s, id))
  {
    var t := FailStep(s, id);
    if t != s {
      forall k | k in t.live ensures GoodJob(t.live[k]) {
        assert GoodJob(s.live[k]);
      }
    }
  }

  lemma {:induction false} FailWriter(s: State, id: JobId)
    requires JobsOk(s) && WriterOk(s)
    ensures WriterOk(FailStep(s, id))
  {
    FailBudget(s, id);
  }

  lemma {:induction false} FailReaders(s: State, id: JobId)
    requires ReadersOk(s)
    ensures ReadersOk(FailStep(s, id))
  {
    var t := FailStep(s, id);
    forall k | k in t.live ensures Grows(s, t, k) {}
    ReadersKept(s, t);
  }

  lemma {:induction false} FailKeeps(s: State, id: JobId)
    requires Inv(s)
    ensures Inv(FailStep(s, id))
  {
    FailBudget(s, id);
    FailWriter(s, id);
    FailJobs(s, id);
    FailReaders(s, id);
  }

  lemma {:induction false} ReadKeeps(s: State, reader: ReaderId, refused: bool)
    requires Inv(s)
    ensures Inv(ReadStep(s, reader, refused))
  {
    var t := ReadStep(s, reader, refused);
    if t != s && !refused {
      assert ReaderOk(s, s.readers[reader]);
      ReadNextOk(s, s.readers[reader]);
    }
  }

  lemma {:induction false} ReadNextOk(s: State, r: Reader)
    requires JobsOk(s) && ReaderOk(s, r) && r.status.Open?
    ensures ReaderOk(s, ReadNext(s.live, r))
  {
  }

  lemma {:induction false} ReleaseKeeps(s: State)
    requires Inv(s)
    ensures Inv(s.(writer := Free))
  {
    ReadersKept(s, s.(writer := Free));
  }

  lemma {:induction false} SubscribeKeeps(s: State, reader: ReaderId, id: JobId)
    requires Inv(s)
    ensures Inv(SubscribeStep(s, reader, id))
  {
    var t := SubscribeStep(s, reader, id);
    forall k | k in t.readers ensures ReaderOk(t, t.readers[k]) {
      assert k in s.readers ==> ReaderOk(s, s.readers[k]);
    }
  }

  lemma {:induction false} StepKeeps(s: State, a: Action)
    requires Inv(s) && Legal(a)
    ensures Inv(Step(s, a))
  {
    match a
    case Check(id, job, expired) => CheckKeeps(s, id, job, expired);
    case Decline => ReleaseKeeps(s);
    case Insert => InsertKeeps(s);
    case Dispatch(id) => DispatchKeeps(s, id);
    case Progress(id, e, late) => ProgressKeeps(s, id, e, late);
    case Cancel(id) => CancelKeeps(s, id);
    case Seal(id, output, verified) => SealKeeps(s, id, output, verified);
    case Install => InstallKeeps(s);
    case Abort => ReleaseKeeps(s);
    case Fail(id) => FailKeeps(s, id);
    case Subscribe(reader, id) => SubscribeKeeps(s, reader, id);
    case Read(reader, refused) => ReadKeeps(s, reader, refused);
  }

  // ---------- Over every run ----------

  ghost predicate AllLegal(actions: seq<Action>) {
    forall i :: 0 <= i < |actions| ==> Legal(actions[i])
  }

  lemma {:induction false} RunKeeps(actions: seq<Action>)
    requires AllLegal(actions)
    ensures Inv(Run(START, actions))
  {
    if actions != [] {
      var n := |actions| - 1;
      RunKeeps(actions[..n]);
      StepKeeps(Run(START, actions[..n]), actions[n]);
    }
  }

  // The budget: in every interleaving at most 256 jobs are live, they hold at most
  // MAX_RAM, and no job buffers more than the spool share of its reservation.
  lemma {:induction false} BudgetHolds(actions: seq<Action>)
    requires AllLegal(actions)
    ensures var s := Run(START, actions);
            |s.live| <= MAX_LIVE && TotalRam(s.live) <= MAX_RAM &&
            forall id :: id in s.live ==>
              TranscriptRam(s.live[id].body.events) <= s.live[id].spool <= s.live[id].reserved
  {
    RunKeeps(actions);
  }

  // Delivery: a reader that reached the terminal holds the signed transcript, each event
  // once and in order.
  lemma {:induction false} DeliveryExact(actions: seq<Action>, reader: ReaderId)
    requires AllLegal(actions)
    ensures var s := Run(START, actions);
            reader in s.readers && s.readers[reader].status.Terminated? ==>
              var r := s.readers[reader];
              r.job in s.signed && r.received == s.signed[r.job] == r.status.transcript
  {
    RunKeeps(actions);
    var s := Run(START, actions);
    if reader in s.readers {
      assert ReaderOk(s, s.readers[reader]);
    }
  }

  lemma {:induction false} StepSigns(s: State, a: Action, id: JobId)
    requires WriterOk(s) && id in s.signed
    ensures id in Step(s, a).signed && Step(s, a).signed[id] == s.signed[id]
  {
    match a
    case Install => assert s.writer.Finishing? ==> s.writer.id != id;
    case _ =>
  }

  // A signed transcript never changes once a run installed it.
  lemma {:induction false} SignedOnce(before: seq<Action>, after: seq<Action>, id: JobId)
    requires AllLegal(before + after) && id in Run(START, before).signed
    ensures id in Run(START, before + after).signed
    ensures Run(START, before + after).signed[id] == Run(START, before).signed[id]
    decreases |after|
  {
    if after == [] {
      assert before + after == before;
    } else {
      var n := |after| - 1;
      var prior := before + after[..n];
      assert before + after == prior + [after[n]];
      LegalFront(prior, after[n]);
      SignedOnce(before, after[..n], id);
      RunKeeps(prior);
      StepSigns(Run(START, prior), after[n], id);
      RunSnoc(prior, after[n]);
    }
  }

  lemma {:induction false} LegalFront(actions: seq<Action>, a: Action)
    requires AllLegal(actions + [a])
    ensures AllLegal(actions)
  {
    assert forall i :: 0 <= i < |actions| ==> actions[i] == (actions + [a])[i];
  }

  lemma {:induction false} RunSnoc(actions: seq<Action>, a: Action)
    ensures Run(START, actions + [a]) == Step(Run(START, actions), a)
  {
    assert (actions + [a])[..|actions|] == actions;
  }

  // An unrefused open reader is never turned away while its job's body is retained: the
  // swap at completion always leaves it an event to read, or the terminal.
  lemma {:induction false} NeverMalformed(actions: seq<Action>, reader: ReaderId)
    requires AllLegal(actions)
    ensures var s := Run(START, actions);
            reader in s.readers && s.readers[reader].status.Open? && s.readers[reader].job in s.live ==>
              var j := s.live[s.readers[reader].job];
              j.body.retained && !j.phase.Refused? ==> !ReadNext(s.live, s.readers[reader]).status.Closed?
  {
    RunKeeps(actions);
    var s := Run(START, actions);
    if reader in s.readers && s.readers[reader].status.Open? && s.readers[reader].job in s.live {
      var r := s.readers[reader];
      assert ReaderOk(s, r);
      var j := s.live[r.job];
      if j.phase.Finished? && j.body.retained {
        StrictlyInside(r.received, j.body.events);
      }
    }
  }

  lemma {:induction false} StrictlyInside(received: seq<Event>, events: seq<Event>)
    requires Streamable(received) && Closes(events) && received <= events
    ensures |received| < |events|
  {
    assert |received| > 0 ==> !received[|received| - 1].terminal && received[|received| - 1] == events[|received| - 1];
  }

  ghost function Reads(live: map<JobId, Job>, r: Reader, n: nat): Reader
    decreases live, n
  {
    if n == 0 then r else ReadNext(live, Reads(live, r, n - 1))
  }

  // Below the last event, each read hands over the next one.
  lemma {:induction false} ReadsPrefix(live: map<JobId, Job>, r: Reader, n: nat)
    requires r.status.Open? && r.job in live && live[r.job].phase.Finished? && live[r.job].body.retained
    requires r.position + n < |live[r.job].body.events| && r.received == live[r.job].body.events[..r.position]
    ensures Reads(live, r, n) == r.(position := r.position + n, received := live[r.job].body.events[..r.position + n])
  {
    if n > 0 {
      ReadsPrefix(live, r, n - 1);
      var events, k := live[r.job].body.events, r.position + n - 1;
      assert events[..k] + [events[k]] == events[..k + 1];
    }
  }

  lemma {:induction false} ReadsToTerminal(live: map<JobId, Job>, r: Reader, n: nat)
    requires r.status.Open? && r.job in live && live[r.job].phase.Finished? && live[r.job].body.retained
    requires n >= 1 && r.position + n == |live[r.job].body.events|
    requires r.received == live[r.job].body.events[..r.position]
    ensures Reads(live, r, n).status == Terminated(live[r.job].phase.transcript)
    ensures Reads(live, r, n).received == live[r.job].body.events
    ensures forall k :: 0 <= k < n ==> Reads(live, r, k).status.Open?
  {
    var events := live[r.job].body.events;
    forall k | 0 <= k < n ensures Reads(live, r, k).status.Open? {
      ReadsPrefix(live, r, k);
    }
    ReadsPrefix(live, r, n - 1);
    assert events[..|events| - 1] + [events[|events| - 1]] == events;
  }

  // Completeness: left alone, a reader of a finished job reaches the terminal with the
  // whole transcript, after exactly one read for each event it has not received.
  lemma {:induction false} DeliveryCompletes(s: State, r: Reader, n: nat)
    requires JobsOk(s) && ReaderOk(s, r) && r.status.Open?
    requires r.job in s.live && s.live[r.job].phase.Finished? && s.live[r.job].body.retained
    requires n == |s.live[r.job].body.events| - r.position
    ensures Reads(s.live, r, n).status == Terminated(s.live[r.job].phase.transcript)
    ensures Reads(s.live, r, n).received == s.live[r.job].phase.transcript
    ensures forall k :: 0 <= k < n ==> Reads(s.live, r, k).status.Open?
  {
    assert GoodJob(s.live[r.job]);
    StrictlyInside(r.received, s.live[r.job].body.events);
    ReadsToTerminal(s.live, r, n);
  }

  // ---------- The shared runtime ----------

  // A section that starts in order ends in order.
  ghost predicate Keeps(s: State, t: State) {
    Inv(s) ==> Inv(t)
  }

  // Drops every body, as a failing service does.
  method DiscardBodies(live: map<JobId, Job>) returns (dropped: map<JobId, Job>)
    ensures dropped == Discarded(live)
  {
    var left := live.Keys;
    dropped := live;
    while left != {}
      invariant left <= live.Keys == dropped.Keys
      invariant forall k :: k in live ==>
                  dropped[k] == if k in left then live[k] else live[k].(body := DISCARDED)
      decreases |left|
    {
      var k :| k in left;
      dropped := dropped[k := dropped[k].(body := DISCARDED)];
      left := left - {k};
    }
  }

  // One poll of a result stream by an open reader.
  method Poll(live: map<JobId, Job>, reader: Reader) returns (r: Reader)
    ensures r == ReadNext(live, reader)
  {
    r := reader;
    if r.job !in live || live[r.job].phase.Refused? || !live[r.job].body.retained {
      return r.(status := Closed);
    }
    var l := live[r.job];
    var events := l.body.events;
    var end := |events|;
    if l.phase.Finished? && end > 0 {
      end := end - 1;
    }
    if r.position > end {
      return r.(status := Closed);
    }
    if r.position < end {
      r := r.(received := r.received + [events[r.position]]);
      r := r.(position := r.position + 1);
    } else if l.phase.Finished? {
      if events == [] {
        return r.(status := Closed);
      }
      r := r.(received := r.received + [events[|events| - 1]]);
      r := r.(status := Terminated(l.phase.transcript));
    }
  }

  // The mutable runtime behind the locks. Each method is one locked section: it moves the
  // machine by one step, and keeps the budget, the jobs, the writer and the readers in order.
  class Runtime {
    var live: map<JobId, Job>
    var accepted: set<JobId>
    var signed: map<JobId, seq<Event>>
    var writer: Writer
    var readers: map<ReaderId, Reader>

    ghost function View(): State
      reads this
    {
      State(live, accepted, signed, writer, readers)
    }

    constructor ()
      ensures View() == START && Inv(View())
    {
      live, accepted, signed, writer, readers := map[], {}, map[], Free, map[];
      new;
      RunKeeps([]);
    }

    // Drops the finished jobs nobody can be served from any more.
    method Retain(expired: set<JobId>)
      modifies this`live
      ensures live == Retained(old(live), expired)
    {
      var left := live.Keys;
      var kept: map<JobId, Job> := map[];
      while left != {}
        invariant left <= live.Keys && live == old(live)
        invariant kept == Retained(map id | id in live && id !in left :: live[id], expired)
        decreases |left|
      {
        var id :| id in left;
        var l := live[id];
        if Active(l.phase) || (id !in expired && l.body.retained) {
          kept := kept[id := l];
        }
        left := left - {id};
      }
      assert live == map id | id in live && id !in left :: live[id];
      live := kept;
    }

    method CheckAdmission(id: JobId, job: Job, expired: set<JobId>) returns (admitted: bool)
      requires writer.Free?
      modifies this
      ensures View() == CheckStep(old(View()), id, job, expired)
      ensures Legal(Check(id, job, expired)) ==> Keeps(old(View()), View())
      ensures admitted <==> writer.Accepting?
    {
      assert Legal(Check(id, job, expired)) ==> Keeps(View(), CheckStep(View(), id, job, expired)) by {
        if Legal(Check(id, job, expired)) && Inv(View()) {
          CheckKeeps(View(), id, job, expired);
        }
      }
      if id in accepted {
        return false;
      }
      Retain(expired);
      var over := OverBudget(live, job.reserved);
      if over {
        return false;
      }
      writer := Accepting(id, job);
      return true;
    }

    method InsertAccepted()
      requires writer.Accepting?
      modifies this
      ensures View() == InsertStep(old(View())) && Keeps(old(View()), View())
      ensures old(writer).id in live
    {
      assert Keeps(View(), InsertStep(View())) by {
        if Inv(View()) {
          InsertKeeps(View());
        }
      }
      live := live[writer.id := writer.job];
      accepted := accepted + {writer.id};
      writer := Free;
    }

    method RecordProgress(id: JobId, e: Event, late: bool)
      modifies this`live
      ensures View() == ProgressStep(old(View()), id, e, late) && Keeps(old(View()), View())
    {
      assert Keeps(View(), ProgressStep(View(), id, e, late)) by {
        if Inv(View()) {
          ProgressKeeps(View(), id, e, late);
        }
      }
      if e.terminal || id !in live {
        return;
      }
      var l := live[id];
      if !l.phase.Running? {
        return;
      }
      if late {
        live := live[id := l.(body := DISCARDED)];
        return;
      }
      if !l.body.retained {
        return;
      }
      var charge := EventRam(e);
      var next := Sat(l.body.bytes + charge);
      if next > l.spool || charge > l.maxFrame {
        return;
      }
      var prefix := Pushed(l.prefix, e);
      var body := l.body.(bytes := next).(events := l.body.events + [e]);
      live := live[id := l.(prefix := prefix).(body := body)];
    }

    method SealCompletion(id: JobId, output: Option<seq<Event>>, verified: bool)
      requires writer.Free?
      modifies this
      ensures View() == SealStep(old(View()), id, output, verified) && Keeps(old(View()), View())
    {
      assert Keeps(View(), SealStep(View(), id, output, verified)) by {
        if Inv(View()) {
          SealKeeps(View(), id, output, verified);
        }
      }
      if id !in live {
        return;
      }
      var l := live[id];
      if !l.phase.Queued? && !l.phase.Running? {
        return;
      }
      var completion: Option<seq<Event>> := None;
      if verified && output.Some? && Closes(output.value) {
        var matches := PrefixMatches(l.prefix, output.value);
        if matches && TranscriptRam(output.value) <= l.spool {
          completion := output;
        }
      }
      live := live[id := l.(phase := Completing)];
      writer := Finishing(id, completion);
    }

    method InstallCompletion()
      requires writer.Finishing?
      modifies this
      ensures View() == InstallStep(old(View())) && Keeps(old(View()), View())
    {
      assert Keeps(View(), InstallStep(View())) by {
        if Inv(View()) {
          InstallKeeps(View());
        }
      }
      var id := writer.id;
      if id !in live {
        return;
      }
      var l := live[id];
      if writer.completion.Some? {
        var events := writer.completion.value;
        if l.body.retained {
          l := l.(body := l.body.(bytes := TranscriptRam(events), events := events));
        }
        live := live[id := l.(phase := Finished(events))];
        signed := signed[id := events];
      } else {
        live := live[id := l.(body := DISCARDED, phase := Refused)];
      }
      writer := Free;
    }

    // A declined acceptance, or a completion that could not be made durable, gives the
    // writer lock back.
    method ReleaseWriter()
      modifies this`writer
      ensures View() == old(View()).(writer := Free) && Keeps(old(View()), View())
    {
      assert Keeps(View(), View().(writer := Free)) by {
        if Inv(View()) {
          ReleaseKeeps(View());
        }
      }
      writer := Free;
    }

    method DispatchJob(id: JobId)
      requires writer.Free?
      modifies this`live
      ensures View() == DispatchStep(old(View()), id) && Keeps(old(View()), View())
    {
      assert Keeps(View(), DispatchStep(View(), id)) by {
        if Inv(View()) {
          DispatchKeeps(View(), id);
        }
      }
      if id in live && live[id].phase.Queued? {
        live := live[id := live[id].(phase := Running)];
      }
    }

    method CancelBody(id: JobId)
      modifies this`live
      ensures View() == CancelStep(old(View()), id) && Keeps(old(View()), View())
    {
      assert Keeps(View(), CancelStep(View(), id)) by {
        if Inv(View()) {
          CancelKeeps(View(), id);
        }
      }
      if id in live {
        live := live[id := live[id].(body := DISCARDED)];
      }
    }

    method FailJob(id: JobId)
      modifies this`live
      ensures View() == FailStep(old(View()), id) && Keeps(old(View()), View())
    {
      assert Keeps(View(), FailStep(View(), id)) by {
        if Inv(View()) {
          FailKeeps(View(), id);
        }
      }
      if id !in live || !Active(live[id].phase) || (writer.Finishing? && writer.id == id) {
        return;
      }
      var dropped := DiscardBodies(live);
      live := dropped[id := dropped[id].(phase := Refused)];
    }

    method SubscribeReader(reader: ReaderId, id: JobId)
      modifies this`readers
      ensures View() == SubscribeStep(old(View()), reader, id) && Keeps(old(View()), View())
    {
      assert Keeps(View(), SubscribeStep(View(), reader, id)) by {
        if Inv(View()) {
          SubscribeKeeps(View(), reader, id);
        }
      }
      if reader !in readers {
        readers := readers[reader := Reader(id, 0, [], Open)];
      }
    }

    // One poll of a result stream.
    method StreamUpdate(reader: ReaderId, refused: bool)
      requires writer.Free?
      modifies this`readers
      ensures View() == ReadStep(old(View()), reader, refused) && Keeps(old(View()), View())
    {
      assert Keeps(View(), ReadStep(View(), reader, refused)) by {
        if Inv(View()) {
          ReadKeeps(View(), reader, refused);
        }
      }
      if reader !in readers || !readers[reader].status.Open? {
        return;
      }
      var r := readers[reader].(status := Closed);
      if !refused {
        r := Poll(live, readers[reader]);
      }
      readers := readers[reader := r];
    }
  }
}
