/**
 What becomes of a granted job: when it is admitted, what its body streams, which completion
 is installed and signed, and that its readers then get it.
 Source: crates/authority/src/grant_service.rs.
 */
module GrantCompletion {
  import opened Wrappers
  import opened GrantRuntime

  // ---------- Completion ----------

  // What a completion must be to be signed, said of the events that were streamed.
  ghost predicate Deliverable(j: Job, streamed: seq<Event>, output: Option<seq<Event>>, verified: bool) {
    && verified && output.Some? && Closes(output.value)
    && streamed <= output.value && TranscriptRam(output.value) <= j.spool
  }

  // Sealing and installing a completion: the job finishes with it, and it is signed, exactly
  // when it was verified, closes, continues what was streamed and fits the spool. Otherwise
  // the job is refused without a body and nothing is signed. No other job is touched.
  lemma {:induction false} CompletionExact(
    s: State, id: JobId, streamed: seq<Event>, output: Option<seq<Event>>, verified: bool)
    requires s.writer.Free? && id in s.live && (s.live[id].phase.Queued? || s.live[id].phase.Running?)
    requires s.live[id].prefix == Commit(streamed)
    ensures var t := Step(Step(s, Seal(id, output, verified)), Install);
            && t.writer.Free? && t.live.Keys == s.live.Keys && t.live - {id} == s.live - {id}
            && t.accepted == s.accepted && t.readers == s.readers
            && if Deliverable(s.live[id], streamed, output, verified) then
                 && t.live[id].phase == Finished(output.value) && t.signed == s.signed[id := output.value]
                 && t.live[id].body.retained == s.live[id].body.retained
                 && (t.live[id].body.retained ==> t.live[id].body.events == output.value)
               else
                 t.live[id].phase == Refused && t.live[id].body == DISCARDED && t.signed == s.signed
  {
    if output.Some? {
      MatchesExact(streamed, output.value);
    }
  }

  ghost predicate Offered(actions: seq<Action>, id: JobId, events: seq<Event>) {
    Seal(id, Some(events), true) in actions
  }

  ghost predicate AllOffered(s: State, actions: seq<Action>) {
    && (forall id :: id in s.signed ==> Offered(actions, id, s.signed[id]))
    && (s.writer.Finishing? && s.writer.completion.Some? ==> Offered(actions, s.writer.id, s.writer.completion.value))
  }

  lemma {:induction false} OfferStep(s: State, actions: seq<Action>, a: Action)
    requires AllOffered(s, actions)
    ensures AllOffered(Step(s, a), actions + [a])
  {
    var t, all := Step(s, a), actions + [a];
    assert forall id, events :: Offered(actions, id, events) ==> Offered(all, id, events);
    match a
    case Seal(id, output, verified) =>
      if output.Some? && verified {
        assert all[|actions|] == Seal(id, Some(output.value), true);
      }
    case _ =>
  }

  lemma {:induction false} OfferRun(actions: seq<Action>)
    ensures AllOffered(Run(START, actions), actions)
    decreases |actions|
  {
    if actions != [] {
      var front, a := actions[..|actions| - 1], actions[|actions| - 1];
      OfferRun(front);
      OfferStep(Run(START, front), front, a);
      assert front + [a] == actions;
    }
  }

  // In every run each signed transcript was offered, verified, for that very job.
  lemma {:induction false} SignedWasVerified(actions: seq<Action>, id: JobId)
    requires id in Run(START, actions).signed
    ensures exists k :: 0 <= k < |actions| && actions[k] == Seal(id, Some(Run(START, actions).signed[id]), true)
  {
    OfferRun(actions);
    assert Offered(actions, id, Run(START, actions).signed[id]);
  }

  // ---------- Admission ----------

  lemma {:induction false} RunAppend(s: State, a: seq<Action>, b: seq<Action>)
    ensures Run(s, a + b) == Run(Run(s, a), b)
    decreases |b|
  {
    if b == [] {
      assert a + b == a;
    } else {
      assert (a + b)[..|a + b| - 1] == a + b[..|b| - 1];
      RunAppend(s, a, b[..|b| - 1]);
    }
  }

  lemma {:induction false} RunOne(s: State, a: Action)
    ensures Run(s, [a]) == Step(s, a)
  {
    assert [a][..0] == [];
    assert Run(s, [a][..0]) == s;
  }

  lemma {:induction false} RunTwo(s: State, a: Action, b: Action)
    ensures Run(s, [a, b]) == Step(Step(s, a), b)
  {
    assert [a, b][..1] == [a];
    RunOne(s, a);
  }

  // Only inactive jobs leave at an admission check, and of those exactly the ones whose
  // delivery lapsed or whose body is gone.
  lemma {:induction false} RetentionExact(live: map<JobId, Job>, expired: set<JobId>, id: JobId)
    ensures id in live && id !in Retained(live, expired) <==>
              id in live && !Active(live[id].phase) && (id in expired || !live[id].body.retained)
    ensures id in Retained(live, expired) ==> id in live && Retained(live, expired)[id] == live[id]
  {
  }

  // A new job is accepted exactly when, after retention, one more job fits both the number
  // of live jobs and the memory budget. An accepted id is never admitted again.
  lemma {:induction false} AdmissionExact(s: State, id: JobId, job: Job, expired: set<JobId>)
    requires s.writer.Free?
    ensures var t, kept := Run(s, [Check(id, job, expired), Insert]), Retained(s.live, expired);
            if id in s.accepted then t == s
            else if |kept| < MAX_LIVE && job.reserved + TotalRam(kept) <= MAX_RAM then
              t == s.(live := kept[id := job], accepted := s.accepted + {id})
            else t == s.(live := kept)
  {
    RunTwo(s, Check(id, job, expired), Insert);
  }

  // A job whose acceptance is declined leaves no trace but the retention, and its id may be
  // offered again.
  lemma {:induction false} DeclineExact(s: State, id: JobId, job: Job, expired: set<JobId>)
    requires s.writer.Free? && id !in s.accepted
    ensures Run(s, [Check(id, job, expired), Decline]) == s.(live := Retained(s.live, expired))
  {
    RunTwo(s, Check(id, job, expired), Decline);
  }

  // Dispatch starts exactly a queued job.
  lemma {:induction false} DispatchExact(s: State, id: JobId)
    requires s.writer.Free? && id in s.live
    ensures var t := Step(s, Dispatch(id));
            if s.live[id].phase.Queued? then
              t.live[id] == s.live[id].(phase := Running) && t.live - {id} == s.live - {id} && t == s.(live := t.live)
            else t == s
  {
  }

  // ---------- Streaming ----------

  // An event is streamed exactly when its job runs with a retained body, it is no terminal,
  // and it fits the spool and the frame; then it is appended to the body and to the
  // commitment. Otherwise nothing changes.
  lemma {:induction false} ProgressExact(s: State, id: JobId, e: Event)
    requires id in s.live && GoodJob(s.live[id])
    ensures var j, t := s.live[id], Step(s, Progress(id, e, false));
            var fits := TranscriptRam(j.body.events + [e]) <= j.spool && EventRam(e) <= j.maxFrame;
            if j.phase.Running? && j.body.retained && !e.terminal && fits then
              && t.live - {id} == s.live - {id} && t == s.(live := t.live)
              && id in t.live && t.live[id].body.retained && t.live[id].body.events == j.body.events + [e]
              && t.live[id].prefix == Commit(j.body.events + [e])
              && t.live[id] == j.(body := t.live[id].body, prefix := t.live[id].prefix)
            else t == s
  {
    RamOfStreaming(s.live[id].body.events, e);
  }

  lemma {:induction false} ProgressGood(s: State, id: JobId, e: Event)
    requires id in s.live && GoodJob(s.live[id])
    ensures id in Step(s, Progress(id, e, false)).live && GoodJob(Step(s, Progress(id, e, false)).live[id])
  {
    RamOfStreaming(s.live[id].body.events, e);
  }

  ghost function Stream(id: JobId, es: seq<Event>): seq<Action> {
    seq(|es|, i requires 0 <= i < |es| => Progress(id, es[i], false))
  }

  ghost predicate Streams(j: Job, es: seq<Event>) {
    && Streamable(es) && TranscriptRam(j.body.events + es) <= j.spool
    && forall i :: 0 <= i < |es| ==> EventRam(es[i]) <= j.maxFrame
  }

  lemma {:induction false} RamGrows(events: seq<Event>, e: Event)
    ensures TranscriptRam(events) <= TranscriptRam(events + [e])
    decreases |events|
  {
    RamOfStreaming(events, e);
    RamCapped(events);
  }

  lemma {:induction false} RamCapped(events: seq<Event>)
    ensures TranscriptRam(events) <= USIZE_MAX
  {
  }

  // Where streaming some events has led.
  ghost predicate Streamed(s: State, t: State, id: JobId, es: seq<Event>) {
    && id in s.live && id in t.live && t.live - {id} == s.live - {id} && t == s.(live := t.live)
    && t.live[id].phase.Running? && t.live[id].body.retained
    && t.live[id].body.events == s.live[id].body.events + es && GoodJob(t.live[id])
    && t.live[id].prefix == Commit(t.live[id].body.events)
    && t.live[id].spool == s.live[id].spool && t.live[id].maxFrame == s.live[id].maxFrame
  }

  lemma {:induction false} StreamOne(s: State, t: State, id: JobId, es: seq<Event>, e: Event)
    requires Streamed(s, t, id, es) && !e.terminal
    requires TranscriptRam(s.live[id].body.events + (es + [e])) <= s.live[id].spool
    requires EventRam(e) <= s.live[id].maxFrame
    ensures Streamed(s, Step(t, Progress(id, e, false)), id, es + [e])
  {
    assert s.live[id].body.events + (es + [e]) == t.live[id].body.events + [e];
    ProgressExact(t, id, e);
    ProgressGood(t, id, e);
  }

  lemma {:induction false} StreamsFront(j: Job, front: seq<Event>, e: Event)
    requires Streams(j, front + [e])
    ensures Streams(j, front) && !e.terminal && EventRam(e) <= j.maxFrame
  {
    var es := front + [e];
    assert es[|front|] == e && forall i :: 0 <= i < |front| ==> es[i] == front[i];
    assert j.body.events + es == j.body.events + front + [e];
    RamGrows(j.body.events + front, e);
  }

  ghost predicate MayStream(s: State, id: JobId) {
    && id in s.live && GoodJob(s.live[id]) && s.live[id].phase.Running? && s.live[id].body.retained
  }

  lemma {:induction false} NothingStreamed(s: State, id: JobId)
    requires MayStream(s, id)
    ensures Streamed(s, Run(s, Stream(id, [])), id, [])
  {
    assert s.live[id].body.events + [] == s.live[id].body.events;
  }

  lemma {:induction false} StreamSnoc(s: State, id: JobId, front: seq<Event>, e: Event)
    ensures Run(s, Stream(id, front + [e])) == Step(Run(s, Stream(id, front)), Progress(id, e, false))
  {
    var actions := Stream(id, front + [e]);
    assert actions[..|front|] == Stream(id, front) && actions[|front|] == Progress(id, e, false);
  }

  // A running job streams every event that fits, in order.
  lemma {:induction false} StreamsAll(s: State, id: JobId, es: seq<Event>)
    requires MayStream(s, id) && Streams(s.live[id], es)
    ensures Streamed(s, Run(s, Stream(id, es)), id, es)
    decreases |es|
  {
    if es == [] {
      NothingStreamed(s, id);
    } else {
      var front, e := es[..|es| - 1], es[|es| - 1];
      assert es == front + [e];
      StreamsFront(s.live[id], front, e);
      StreamsAll(s, id, front);
      StreamSnoc(s, id, front, e);
      StreamOne(s, Run(s, Stream(id, front)), id, front, e);
    }
  }

  // ---------- Reading along ----------

  // While a job is at work an open reader is handed every streamed event it has not had, one
  // each read, and then waits.
  lemma {:induction false} ReadsAlong(live: map<JobId, Job>, r: Reader, n: nat)
    requires r.status.Open? && r.job in live && Active(live[r.job].phase) && live[r.job].body.retained
    requires r.position <= |live[r.job].body.events| && r.received == live[r.job].body.events[..r.position]
    ensures var events := live[r.job].body.events;
            var end := if r.position + n < |events| then r.position + n else |events|;
            Reads(live, r, n) == r.(position := end, received := events[..end])
    decreases n
  {
    var events := live[r.job].body.events;
    if n > 0 {
      ReadsAlong(live, r, n - 1);
      if r.position + n <= |events| {
        var k := r.position + n - 1;
        assert events[..k] + [events[k]] == events[..k + 1];
      }
    }
  }

  // A refused read ends the stream and hands over nothing.
  lemma {:induction false} RefusedRead(s: State, reader: ReaderId)
    requires s.writer.Free? && reader in s.readers && s.readers[reader].status.Open?
    ensures Step(s, Read(reader, true)).readers[reader] == s.readers[reader].(status := Closed)
    ensures Step(s, Read(reader, true)).live == s.live
  {
  }

  // ---------- Withdrawn results ----------

  // Once a job is cancelled, or any job's failure was recorded, a reader of it that is still
  // open is turned away at its next read: nothing more of the body is handed over.
  lemma {:induction false} CancelWithdraws(s: State, id: JobId, r: Reader)
    requires r.job == id
    ensures ReadNext(Step(s, Cancel(id)).live, r) == r.(status := Closed)
  {
  }

  lemma {:induction false} FailureWithdraws(s: State, id: JobId, r: Reader)
    requires id in s.live && Active(s.live[id].phase) && !(s.writer.Finishing? && s.writer.id == id)
    ensures Step(s, Fail(id)).live[id].phase.Refused?
    ensures ReadNext(Step(s, Fail(id)).live, r) == r.(status := Closed)
  {
  }

  lemma {:induction false} LateWithdraws(s: State, id: JobId, e: Event, r: Reader)
    requires id in s.live && s.live[id].phase.Running? && !e.terminal && r.job == id
    ensures ReadNext(Step(s, Progress(id, e, true)).live, r) == r.(status := Closed)
  {
  }

  // A completion whose durable write failed is not signed, and its job can be refused.
  lemma {:induction false} AbortedRefused(s: State, id: JobId, output: Option<seq<Event>>, verified: bool)
    requires s.writer.Free? && id in s.live && (s.live[id].phase.Queued? || s.live[id].phase.Running?)
    ensures var t := Step(Step(Step(s, Seal(id, output, verified)), Abort), Fail(id));
            t.writer.Free? && id in t.live && t.live[id].phase.Refused? && t.signed == s.signed
  {
  }

  // ---------- The whole life of a job ----------

  ghost function Reading(reader: ReaderId, n: nat): seq<Action> {
    seq(n, i => Read(reader, false))
  }

  ghost predicate StillOpen(live: map<JobId, Job>, r: Reader, n: nat) {
    forall k :: 0 <= k < n ==> Reads(live, r, k).status.Open?
  }

  lemma {:induction false} RunReads(s: State, reader: ReaderId, n: nat)
    requires s.writer.Free? && reader in s.readers && StillOpen(s.live, s.readers[reader], n)
    ensures Run(s, Reading(reader, n)) ==
              s.(readers := s.readers[reader := Reads(s.live, s.readers[reader], n)])
  {
    if n == 0 {
      assert s.readers[reader := s.readers[reader]] == s.readers;
    } else {
      assert Reading(reader, n)[..n - 1] == Reading(reader, n - 1);
      RunReads(s, reader, n - 1);
      assert Reads(s.live, s.readers[reader], n - 1).status.Open?;
    }
  }

  lemma {:induction false} RunKeepsFrom(s: State, actions: seq<Action>)
    requires Inv(s) && AllLegal(actions)
    ensures Inv(Run(s, actions))
    decreases |actions|
  {
    if actions != [] {
      RunKeepsFrom(s, actions[..|actions| - 1]);
      StepKeeps(Run(s, actions[..|actions| - 1]), actions[|actions| - 1]);
    }
  }

  // From admission to a running job with an empty body.
  lemma {:induction false} Started(s: State, id: JobId, job: Job, expired: set<JobId>)
    requires Inv(s) && s.writer.Free? && id !in s.accepted && Legal(Check(id, job, expired))
    requires Admits(Retained(s.live, expired), job.reserved)
    ensures var t := Run(s, [Check(id, job, expired), Insert] + [Dispatch(id)]);
            && Inv(t) && t.writer.Free? && t.readers == s.readers && MayStream(t, id)
            && t.live[id] == job.(phase := Running) && job.body.events == [] && job.prefix == Commit([])
  {
    var accept, t := [Check(id, job, expired), Insert], Run(s, [Check(id, job, expired), Insert] + [Dispatch(id)]);
    AdmissionExact(s, id, job, expired);
    RunAppend(s, accept, [Dispatch(id)]);
    RunOne(Run(s, accept), Dispatch(id));
    DispatchExact(Run(s, accept), id);
    RunKeepsFrom(s, accept + [Dispatch(id)]);
    assert GoodJob(t.live[id]);
  }

  ghost function Finish(id: JobId, transcript: seq<Event>, reader: ReaderId): seq<Action> {
    [Seal(id, Some(transcript), true), Install] + [Subscribe(reader, id)]
  }

  lemma {:induction false} RunFinish(s: State, id: JobId, transcript: seq<Event>, reader: ReaderId)
    ensures Run(s, Finish(id, transcript, reader)) ==
              Step(Step(Step(s, Seal(id, Some(transcript), true)), Install), Subscribe(reader, id))
  {
    var seal, sub := [Seal(id, Some(transcript), true), Install], [Subscribe(reader, id)];
    RunTwo(s, seal[0], Install);
    RunAppend(s, seal, sub);
    RunOne(Run(s, seal), sub[0]);
  }

  lemma {:induction false} FinishKeeps(s: State, id: JobId, transcript: seq<Event>, reader: ReaderId)
    requires Inv(s)
    ensures Inv(Run(s, Finish(id, transcript, reader)))
  {
    RunFinish(s, id, transcript, reader);
    StepKeeps(s, Seal(id, Some(transcript), true));
    StepKeeps(Step(s, Seal(id, Some(transcript), true)), Install);
    StepKeeps(Step(Step(s, Seal(id, Some(transcript), true)), Install), Subscribe(reader, id));
  }

  // From a running job to a finished one with one new reader.
  lemma {:induction false} Completed(
    s: State, id: JobId, streamed: seq<Event>, transcript: seq<Event>, reader: ReaderId)
    requires s.writer.Free? && MayStream(s, id) && reader !in s.readers
    requires s.live[id].prefix == Commit(streamed) && Deliverable(s.live[id], streamed, Some(transcript), true)
    ensures var t := Run(s, Finish(id, transcript, reader));
            && t.writer.Free? && reader in t.readers && t.readers[reader] == Reader(id, 0, [], Open)
            && id in t.live && t.live[id].phase == Finished(transcript) && t.live[id].body.retained
            && t.live[id].body.events == transcript
  {
    CompletionExact(s, id, streamed, Some(transcript), true);
    RunFinish(s, id, transcript, reader);
  }

  lemma {:induction false} Delivered(s: State, reader: ReaderId, id: JobId, transcript: seq<Event>)
    requires Inv(s) && s.writer.Free? && reader in s.readers && s.readers[reader] == Reader(id, 0, [], Open)
    requires id in s.live && s.live[id].phase == Finished(transcript) && s.live[id].body.retained
    requires s.live[id].body.events == transcript
    ensures var t := Run(s, Reading(reader, |transcript|));
            && reader in t.readers && t.readers[reader].status == Terminated(transcript)
            && t.readers[reader].received == transcript
  {
    assert ReaderOk(s, s.readers[reader]);
    DeliveryCompletes(s, s.readers[reader], |transcript|);
    RunReads(s, reader, |transcript|);
  }

  ghost function Life(
    id: JobId, job: Job, expired: set<JobId>, es: seq<Event>, transcript: seq<Event>, reader: ReaderId): seq<Action>
  {
    [Check(id, job, expired), Insert] + [Dispatch(id)] + Stream(id, es)
    + Finish(id, transcript, reader) + Reading(reader, |transcript|)
  }

  // From any state in order with room for the job: it is admitted, streams, completes with
  // its verified transcript, and a reader receives that transcript, each event once, in order.
  lemma {:induction false} JobDelivered(
    s: State, id: JobId, job: Job, expired: set<JobId>, es: seq<Event>, transcript: seq<Event>, reader: ReaderId)
    requires Inv(s) && s.writer.Free? && id !in s.accepted && reader !in s.readers
    requires Legal(Check(id, job, expired)) && Admits(Retained(s.live, expired), job.reserved)
    requires Streams(job, es) && Deliverable(job, es, Some(transcript), true)
    ensures var t := Run(s, Life(id, job, expired, es, transcript, reader));
            && reader in t.readers && t.readers[reader].status == Terminated(transcript)
            && t.readers[reader].received == transcript
  {
    var start := [Check(id, job, expired), Insert] + [Dispatch(id)];
    var finish := Finish(id, transcript, reader);
    Started(s, id, job, expired);
    var running := Run(s, start);
    StreamsAll(running, id, es);
    var streamed := Run(running, Stream(id, es));
    RunKeepsFrom(running, Stream(id, es));
    assert [] + es == es;
    Completed(streamed, id, es, transcript, reader);
    FinishKeeps(streamed, id, transcript, reader);
    Delivered(Run(streamed, finish), reader, id, transcript);
    RunAppend(s, start, Stream(id, es));
    RunAppend(s, start + Stream(id, es), finish);
    RunAppend(s, start + Stream(id, es) + finish, Reading(reader, |transcript|));
  }
}
