/**
 The incremental server-sent-events decoder. However a byte stream is cut into
 pushes, the decoder does what one push of the whole stream does.
 Source: crates/adaptors/src/wire.rs.
 */
module SseDecoder {
  import opened Wrappers

  type Byte = b: int | 0 <= b < 256

  const LF: Byte := 10
  const CR: Byte := 13

  const MAX_RESPONSE: nat := 3 * 1024 * 1024
  const MAX_DELIMITER: nat := 4
  const MAX_FRAME: nat := MAX_RESPONSE - MAX_DELIMITER
  const MAX_EVENTS: nat := 65_536
  const U64_MAX: nat := 0xFFFF_FFFF_FFFF_FFFF

  datatype Event = Event(name: Option<seq<Byte>>, data: seq<Byte>)

  // What parsing one frame yields; None is a frame the parser refuses.
  datatype FrameInfo = FrameInfo(event: Option<Event>, ignored: nat, noncanonical: nat)
  type Parser = seq<Byte> -> Option<FrameInfo>

  datatype SseError = FrameLimit | ResponseLimit | EventLimit | BadFrame

  // ---------- Delimiters ----------

  predicate LfLfAt(b: seq<Byte>, i: nat) {
    i + 1 < |b| && b[i] == LF && b[i + 1] == LF
  }

  predicate CrLfCrLfAt(b: seq<Byte>, i: nat) {
    i + 3 < |b| && b[i] == CR && b[i + 1] == LF && b[i + 2] == CR && b[i + 3] == LF
  }

  function DelimLen(b: seq<Byte>, i: nat): (n: nat)
    ensures n > 0 ==> i + n <= |b| && (n == 2 || n == 4)
  {
    if LfLfAt(b, i) then 2 else if CrLfCrLfAt(b, i) then 4 else 0
  }

  ghost predicate NoneBefore(b: seq<Byte>, k: nat) {
    forall j: nat :: j < k ==> DelimLen(b, j) == 0
  }

  ghost predicate NoDelim(b: seq<Byte>) {
    NoneBefore(b, |b|)
  }

  // The first delimiter at or after i.
  function Find(b: seq<Byte>, i: nat): (r: Option<nat>)
    ensures r.Some? ==> i <= r.value < |b| && DelimLen(b, r.value) > 0
    decreases |b| - i
  {
    if i >= |b| then None
    else if DelimLen(b, i) > 0 then Some(i)
    else Find(b, i + 1)
  }

  lemma {:induction false} FindFirst(b: seq<Byte>, i: nat)
    ensures forall j: nat :: i <= j < (if Find(b, i).Some? then Find(b, i).value else |b|) ==> DelimLen(b, j) == 0
    decreases |b| - i
  {
    if i < |b| && DelimLen(b, i) == 0 {
      FindFirst(b, i + 1);
    }
  }

  lemma {:induction false} FindUnique(b: seq<Byte>, k: nat)
    requires k < |b| && DelimLen(b, k) > 0 && NoneBefore(b, k)
    ensures Find(b, 0) == Some(k)
  {
    FindFirst(b, 0);
  }

  lemma {:induction false} FindNone(b: seq<Byte>)
    ensures Find(b, 0).None? <==> NoDelim(b)
  {
    FindFirst(b, 0);
  }

  method FindSseDelimiter(buffer: seq<Byte>) returns (r: Option<(nat, nat)>)
    ensures r.None? <==> Find(buffer, 0).None?
    ensures r.Some? ==> Find(buffer, 0) == Some(r.value.0) && r.value.1 == DelimLen(buffer, r.value.0)
  {
    var end := if |buffer| == 0 then 0 else |buffer| - 1;
    for index := 0 to end
      invariant NoneBefore(buffer, index)
    {
      if LfLfAt(buffer, index) {
        FindUnique(buffer, index);
        return Some((index, 2));
      }
      if CrLfCrLfAt(buffer, index) {
        FindUnique(buffer, index);
        return Some((index, 4));
      }
    }
    FindNone(buffer);
    return None;
  }

  // ---------- Counting frames and events ----------

  datatype Counters = Counters(frames: nat, events: nat, ignored: nat, noncanonical: nat)

  function SatAdd(a: nat, b: nat): nat {
    if a + b > U64_MAX then U64_MAX else a + b
  }

  datatype Taken = Taken(counters: Counters, events: seq<Event>)

  // One complete frame: record it, parse it, count its lines, record its event.
  function Take(parse: Parser, c: Counters, frame: seq<Byte>): Result<Taken, SseError> {
    if c.frames + 1 > U64_MAX then Err(BadFrame)
    else
      match parse(frame)
      case None => Err(BadFrame)
      case Some(FrameInfo(event, ignored, noncanonical)) =>
        var c' := Counters(c.frames + 1, c.events, SatAdd(c.ignored, ignored), SatAdd(c.noncanonical, noncanonical));
        if event.None? then Ok(Taken(c', []))
        else if c.events + 1 > MAX_EVENTS then Err(EventLimit)
        else Ok(Taken(c'.(events := c.events + 1), [event.value]))
  }

  // ---------- Draining, in one go ----------

  datatype Drained = Drained(rest: seq<Byte>, counters: Counters, events: seq<Event>)

  // Every complete frame of b in turn, and what is left.
  function Drain(parse: Parser, b: seq<Byte>, c: Counters): Result<Drained, SseError>
    decreases |b|
  {
    match Find(b, 0)
    case None => Ok(Drained(b, c, []))
    case Some(i) =>
      if i > MAX_FRAME then Err(FrameLimit)
      else
        var t :- Take(parse, c, b[..i]);
        var d :- Drain(parse, b[i + DelimLen(b, i)..], t.counters);
        Ok(d.(events := t.events + d.events))
  }

  function After(events: seq<Event>, d: Result<Drained, SseError>): Result<Drained, SseError> {
    if d.Ok? then Ok(d.value.(events := events + d.value.events)) else d
  }

  lemma {:induction false} AfterNothing(d: Result<Drained, SseError>)
    ensures After([], d) == d
  {
    if d.Ok? {
      assert [] + d.value.events == d.value.events;
    }
  }

  lemma {:induction false} AfterAfter(a: seq<Event>, b: seq<Event>, d: Result<Drained, SseError>)
    ensures After(a, After(b, d)) == After(a + b, d)
  {
    if d.Ok? {
      assert a + (b + d.value.events) == a + b + d.value.events;
    }
  }

  // Draining one more frame.
  lemma {:induction false} DrainFrame(
    parse: Parser, emitted: seq<Event>, b: seq<Byte>, c: Counters, i: nat, t: Taken, rest: seq<Byte>)
    requires Find(b, 0) == Some(i) && i <= MAX_FRAME && Take(parse, c, b[..i]) == Ok(t)
    requires rest == b[i + DelimLen(b, i)..]
    ensures After(emitted, Drain(parse, b, c)) == After(emitted + t.events, Drain(parse, rest, t.counters))
  {
    AfterAfter(emitted, t.events, Drain(parse, rest, t.counters));
  }

  lemma {:induction false} DrainRest(parse: Parser, b: seq<Byte>, c: Counters)
    requires Drain(parse, b, c).Ok?
    ensures NoDelim(Drain(parse, b, c).value.rest)
    ensures |Drain(parse, b, c).value.rest| <= |b|
    decreases |b|
  {
    FindNone(b);
    if Find(b, 0).Some? {
      var i := Find(b, 0).value;
      DrainRest(parse, b[i + DelimLen(b, i)..], Take(parse, c, b[..i]).value.counters);
    }
  }

  // A delimiter that is first stays first when more bytes arrive: the two delimiters
  // overlap in no way that could change it.
  lemma {:induction false} FirstIsStable(b: seq<Byte>, more: seq<Byte>)
    requires Find(b, 0).Some?
    ensures Find(b + more, 0) == Find(b, 0)
    ensures DelimLen(b + more, Find(b, 0).value) == DelimLen(b, Find(b, 0).value)
  {
    var i := Find(b, 0).value;
    var all := b + more;
    assert forall j :: 0 <= j < |b| ==> all[j] == b[j];
    FindFirst(b, 0);
    forall j: nat | j < i
      ensures DelimLen(all, j) == 0
    {
      assert DelimLen(b, j) == 0;
    }
    FindUnique(all, i);
  }

  // What more bytes change in draining: nothing in front, and the rest goes on with them.
  ghost predicate Continues(
    parse: Parser, before: Result<Drained, SseError>, all: Result<Drained, SseError>, more: seq<Byte>)
  {
    if before.Err? then all.Err?
    else all == After(before.value.events, Drain(parse, before.value.rest + more, before.value.counters))
  }

  lemma {:induction false} ContinuesAfter(
    parse: Parser, events: seq<Event>, before: Result<Drained, SseError>, all: Result<Drained, SseError>,
    more: seq<Byte>)
    requires Continues(parse, before, all, more)
    ensures Continues(parse, After(events, before), After(events, all), more)
  {
    if before.Ok? {
      AfterAfter(events, before.value.events, Drain(parse, before.value.rest + more, before.value.counters));
    }
  }

  lemma {:induction false} DrainFirst(parse: Parser, b: seq<Byte>, c: Counters, i: nat, rest: seq<Byte>)
    requires Find(b, 0) == Some(i) && rest == b[i + DelimLen(b, i)..]
    ensures i > MAX_FRAME || Take(parse, c, b[..i]).Err? ==> Drain(parse, b, c).Err?
    ensures i <= MAX_FRAME && Take(parse, c, b[..i]).Ok? ==>
              var t := Take(parse, c, b[..i]).value;
              Drain(parse, b, c) == After(t.events, Drain(parse, rest, t.counters))
  {
  }

  // Draining a longer buffer is draining its front, then the rest with the new bytes.
  lemma {:induction false} DrainAppend(parse: Parser, b: seq<Byte>, more: seq<Byte>, c: Counters)
    ensures Continues(parse, Drain(parse, b, c), Drain(parse, b + more, c), more)
    decreases |b|
  {
    if Find(b, 0).None? {
      AfterNothing(Drain(parse, b + more, c));
    } else {
      var i := Find(b, 0).value;
      var rest := b[i + DelimLen(b, i)..];
      FirstIsStable(b, more);
      assert (b + more)[..i] == b[..i];
      assert (b + more)[i + DelimLen(b, i)..] == rest + more;
      DrainFirst(parse, b, c, i, rest);
      DrainFirst(parse, b + more, c, i, rest + more);
      var t := Take(parse, c, b[..i]);
      if i <= MAX_FRAME && t.Ok? {
        DrainAppend(parse, rest, more, t.value.counters);
        ContinuesAfter(parse, t.value.events, Drain(parse, rest, t.value.counters),
                       Drain(parse, rest + more, t.value.counters), more);
      }
    }
  }

  // ---------- The pending frame ----------

  // The buffer ends with a proper prefix of a delimiter that starts within the limit.
  predicate HasIncompleteDelimiter(b: seq<Byte>) {
    || (|b| >= 1 && |b| - 1 <= MAX_FRAME && b[|b| - 1] == LF)
    || (|b| >= 1 && |b| - 1 <= MAX_FRAME && b[|b| - 1] == CR)
    || (|b| >= 2 && |b| - 2 <= MAX_FRAME && b[|b| - 2] == CR && b[|b| - 1] == LF)
    || (|b| >= 3 && |b| - 3 <= MAX_FRAME && b[|b| - 3] == CR && b[|b| - 2] == LF && b[|b| - 1] == CR)
  }

  predicate PendingOk(b: seq<Byte>) {
    |b| <= MAX_FRAME || HasIncompleteDelimiter(b)
  }

  ghost predicate ClosesWithin(b: seq<Byte>, more: seq<Byte>) {
    Find(b + more, 0).Some? && Find(b + more, 0).value <= MAX_FRAME
  }

  // A delimiter within the limit that is not yet complete shows its prefix.
  lemma {:induction false} CloseShowsPrefix(b: seq<Byte>, more: seq<Byte>)
    requires NoDelim(b) && ClosesWithin(b, more)
    ensures PendingOk(b)
  {
    var i := Find(b + more, 0).value;
    var all := b + more;
    assert forall j :: 0 <= j < |b| ==> all[j] == b[j];
    if |b| > MAX_FRAME {
      assert DelimLen(b, i) == 0;
      assert i < |b| < i + DelimLen(all, i);
    }
  }

  lemma {:induction false} FindAtMost(b: seq<Byte>, k: nat)
    requires k < |b| && DelimLen(b, k) > 0
    ensures Find(b, 0).Some? && Find(b, 0).value <= k
  {
    FindFirst(b, 0);
  }

  // Limit exactness: a pending frame is kept if and only if some continuation can
  // still close it within the frame limit.
  lemma {:induction false} PendingExact(b: seq<Byte>)
    requires NoDelim(b)
    ensures PendingOk(b) <==> exists more :: ClosesWithin(b, more)
  {
    forall more | ClosesWithin(b, more)
      ensures PendingOk(b)
    {
      CloseShowsPrefix(b, more);
    }
    if PendingOk(b) {
      var n := |b|;
      if n <= MAX_FRAME {
        FindAtMost(b + [LF, LF], n);
        assert ClosesWithin(b, [LF, LF]);
      } else if b[n - 1] == LF && n - 1 <= MAX_FRAME {
        FindAtMost(b + [LF], n - 1);
        assert ClosesWithin(b, [LF]);
      } else if b[n - 1] == CR && n - 1 <= MAX_FRAME {
        FindAtMost(b + [LF, CR, LF], n - 1);
        assert ClosesWithin(b, [LF, CR, LF]);
      } else if n - 2 <= MAX_FRAME && b[n - 2] == CR && b[n - 1] == LF {
        FindAtMost(b + [CR, LF], n - 2);
        assert ClosesWithin(b, [CR, LF]);
      } else {
        FindAtMost(b + [LF], n - 3);
        assert ClosesWithin(b, [LF]);
      }
    }
  }

  // Once hopeless, always hopeless: more bytes cannot rescue the frame.
  lemma {:induction false} Hopeless(parse: Parser, b: seq<Byte>, more: seq<Byte>, c: Counters)
    requires NoDelim(b) && !PendingOk(b)
    ensures Drain(parse, b + more, c).Ok? ==> !PendingOk(Drain(parse, b + more, c).value.rest)
  {
    if Find(b + more, 0).Some? {
      if Find(b + more, 0).value <= MAX_FRAME {
        CloseShowsPrefix(b, more);
      }
    } else {
      FindNone(b + more);
    }
  }

  // ---------- Pushes, as values ----------

  datatype State = State(buffer: seq<Byte>, scanned: nat, received: nat, counters: Counters)

  const START := State([], 0, 0, Counters(0, 0, 0, 0))

  function ScanFrom(n: nat): nat {
    if n < MAX_DELIMITER - 1 then 0 else n - (MAX_DELIMITER - 1)
  }

  // Between pushes the buffer holds one pending frame, scanned but for three bytes.
  ghost predicate Valid(s: State) {
    && |s.buffer| <= s.received <= MAX_RESPONSE
    && NoDelim(s.buffer) && PendingOk(s.buffer)
    && s.scanned == ScanFrom(|s.buffer|)
  }

  datatype Pushed = Pushed(state: State, events: seq<Event>)

  ghost function PushResult(parse: Parser, s: State, bytes: seq<Byte>): Result<Pushed, SseError> {
    if s.received + |bytes| > MAX_RESPONSE then Err(ResponseLimit)
    else if bytes == [] then Ok(Pushed(s, []))
    else Settle(s.received + |bytes|, Drain(parse, s.buffer + bytes, s.counters))
  }

  // The state after draining, if what is left may still become a frame.
  ghost function Settle(received: nat, drained: Result<Drained, SseError>): Result<Pushed, SseError> {
    var d :- drained;
    if !PendingOk(d.rest) then Err(FrameLimit)
    else Ok(Pushed(State(d.rest, ScanFrom(|d.rest|), received, d.counters), d.events))
  }

  lemma {:induction false} PushValid(parse: Parser, s: State, bytes: seq<Byte>)
    requires Valid(s) && PushResult(parse, s, bytes).Ok?
    ensures Valid(PushResult(parse, s, bytes).value.state)
  {
    if bytes != [] {
      DrainRest(parse, s.buffer + bytes, s.counters);
    }
  }

  // Both refuse, or both accept with the same state and the same events.
  ghost predicate Agree(a: Result<Pushed, SseError>, b: Result<Pushed, SseError>) {
    if a.Ok? then a == b else b.Err?
  }

  ghost function Then(parse: Parser, r: Result<Pushed, SseError>, bytes: seq<Byte>): Result<Pushed, SseError> {
    var first :- r;
    var second :- PushResult(parse, first.state, bytes);
    Ok(Pushed(second.state, first.events + second.events))
  }

  lemma {:induction false} ThenNothing(parse: Parser, s: State, bytes: seq<Byte>)
    requires Valid(s)
    ensures Then(parse, PushResult(parse, s, bytes), []) == PushResult(parse, s, bytes)
    ensures Then(parse, PushResult(parse, s, []), bytes) == PushResult(parse, s, bytes)
  {
    PushValidIfOk(parse, s, bytes);
    var r := PushResult(parse, s, bytes);
    if r.Ok? {
      assert r.value.events + [] == r.value.events && [] + r.value.events == r.value.events;
    }
  }

  lemma {:induction false} PushValidIfOk(parse: Parser, s: State, bytes: seq<Byte>)
    requires Valid(s)
    ensures PushResult(parse, s, bytes).Ok? ==> Valid(PushResult(parse, s, bytes).value.state)
  {
    if PushResult(parse, s, bytes).Ok? {
      PushValid(parse, s, bytes);
    }
  }

  // Draining both chunks at once, against draining them in turn.
  lemma {:induction false} DrainSplit(parse: Parser, buffer: seq<Byte>, a: seq<Byte>, b: seq<Byte>, c: Counters)
    ensures var first := Drain(parse, buffer + a, c);
            var whole := Drain(parse, buffer + (a + b), c);
            if first.Err? then whole.Err?
            else if !PendingOk(first.value.rest) then whole.Err? || !PendingOk(whole.value.rest)
            else whole == After(first.value.events, Drain(parse, first.value.rest + b, first.value.counters))
  {
    assert buffer + (a + b) == buffer + a + b;
    DrainAppend(parse, buffer + a, b, c);
    var first := Drain(parse, buffer + a, c);
    if first.Ok? {
      DrainRest(parse, buffer + a, c);
      if !PendingOk(first.value.rest) {
        Hopeless(parse, first.value.rest, b, first.value.counters);
      }
    }
  }

  lemma {:induction false} PushDrains(parse: Parser, s: State, bytes: seq<Byte>)
    requires bytes != [] && s.received + |bytes| <= MAX_RESPONSE
    ensures PushResult(parse, s, bytes) == Settle(s.received + |bytes|, Drain(parse, s.buffer + bytes, s.counters))
  {
  }

  // The two ways of settling agree, told from what the drains returned.
  lemma {:induction false} SettleBoth(
    first: Result<Drained, SseError>, second: Result<Drained, SseError>, whole: Result<Drained, SseError>,
    before: nat, after: nat)
    requires if first.Err? then whole.Err?
             else if !PendingOk(first.value.rest) then whole.Err? || !PendingOk(whole.value.rest)
             else whole == After(first.value.events, second)
    ensures Settle(before, first).Err? ==> Settle(after, whole).Err?
    ensures Settle(before, first).Ok? ==>
              if Settle(after, second).Err? then Settle(after, whole).Err?
              else Settle(after, whole) == Ok(Pushed(Settle(after, second).value.state,
                  first.value.events + Settle(after, second).value.events))
  {
  }

  lemma {:induction false} PushBoth(parse: Parser, s: State, a: seq<Byte>, b: seq<Byte>)
    requires Valid(s) && a != [] && b != [] && s.received + |a + b| <= MAX_RESPONSE
    ensures Agree(PushResult(parse, s, a + b), Then(parse, PushResult(parse, s, a), b))
  {
    PushDrains(parse, s, a + b);
    PushDrains(parse, s, a);
    var first := Drain(parse, s.buffer + a, s.counters);
    var whole := Drain(parse, s.buffer + (a + b), s.counters);
    DrainSplit(parse, s.buffer, a, b, s.counters);
    var before, after := s.received + |a|, s.received + |a + b|;
    var settled := Settle(before, first);
    if settled.Ok? {
      var second := Drain(parse, settled.value.state.buffer + b, settled.value.state.counters);
      PushDrains(parse, settled.value.state, b);
      SettleBoth(first, second, whole, before, after);
    }
  }

  // Two pushes are one push of both chunks.
  lemma {:induction false} PushSplit(parse: Parser, s: State, a: seq<Byte>, b: seq<Byte>)
    requires Valid(s)
    ensures Agree(PushResult(parse, s, a + b), Then(parse, PushResult(parse, s, a), b))
  {
    if a == [] {
      assert a + b == b;
      ThenNothing(parse, s, b);
    } else if b == [] {
      assert a + b == a;
      ThenNothing(parse, s, a);
    } else if s.received + |a + b| <= MAX_RESPONSE {
      PushBoth(parse, s, a, b);
    }
  }

  ghost function Run(parse: Parser, s: State, chunks: seq<seq<Byte>>): Result<Pushed, SseError> {
    if chunks == [] then Ok(Pushed(s, []))
    else Then(parse, Run(parse, s, chunks[..|chunks| - 1]), chunks[|chunks| - 1])
  }

  ghost function Concat(chunks: seq<seq<Byte>>): seq<Byte> {
    if chunks == [] then [] else Concat(chunks[..|chunks| - 1]) + chunks[|chunks| - 1]
  }

  // Chunking invariance: any way of cutting a stream into pushes accepts or refuses
  // alike, and on acceptance gives the same events, counters, pending bytes and offset.
  lemma {:induction false} ChunkingInvariance(parse: Parser, s: State, chunks: seq<seq<Byte>>)
    requires Valid(s)
    ensures Agree(PushResult(parse, s, Concat(chunks)), Run(parse, s, chunks))
    decreases |chunks|
  {
    if chunks != [] {
      var n := |chunks| - 1;
      ChunkingInvariance(parse, s, chunks[..n]);
      PushSplit(parse, s, Concat(chunks[..n]), chunks[n]);
    }
  }

  lemma {:induction false} AnyTwoChunkings(parse: Parser, a: seq<seq<Byte>>, b: seq<seq<Byte>>)
    requires Concat(a) == Concat(b)
    ensures Agree(Run(parse, START, a), Run(parse, START, b))
  {
    ChunkingInvariance(parse, START, a);
    ChunkingInvariance(parse, START, b);
  }

  // ---------- Finishing ----------

  predicate IsAsciiWhitespace(b: Byte) {
    b == 32 || b == 9 || b == 10 || b == 12 || b == 13
  }

  predicate Blank(b: seq<Byte>) {
    forall i :: 0 <= i < |b| ==> IsAsciiWhitespace(b[i])
  }

  // The last, unterminated frame; whitespace alone is no frame.
  function FinishResult(parse: Parser, s: State): Result<Pushed, SseError> {
    if |s.buffer| > MAX_FRAME then Err(FrameLimit)
    else if Blank(s.buffer) then
      Ok(Pushed(s.(buffer := [], scanned := 0), []))
    else
      var t :- Take(parse, s.counters, s.buffer);
      Ok(Pushed(State([], 0, s.received, t.counters), t.events))
  }

  // A whole response: pushes, then the finish.
  ghost function Ended(parse: Parser, r: Result<Pushed, SseError>): Result<Pushed, SseError> {
    var pushed :- r;
    var last :- FinishResult(parse, pushed.state);
    Ok(Pushed(last.state, pushed.events + last.events))
  }

  // Any two ways of cutting a response agree to its very end: both are refused, or both
  // give the same events, the last unterminated frame's included, and the same counters.
  lemma {:induction false} AnyTwoResponses(parse: Parser, a: seq<seq<Byte>>, b: seq<seq<Byte>>)
    requires Concat(a) == Concat(b)
    ensures Agree(Ended(parse, Run(parse, START, a)), Ended(parse, Run(parse, START, b)))
  {
    AnyTwoChunkings(parse, a, b);
  }

  // The pending bytes are not already part of a delimiter that a line feed would complete.
  predicate EndsOpen(b: seq<Byte>) {
    && !(|b| >= 1 && b[|b| - 1] == LF)
    && !(|b| >= 3 && b[|b| - 3] == CR && b[|b| - 2] == LF && b[|b| - 1] == CR)
  }

  // Two line feeds close the pending bytes as one frame exactly when they end open.
  lemma {:induction false} ClosedByBlankLine(b: seq<Byte>)
    requires NoDelim(b)
    ensures Find(b + [LF, LF], 0) == Some(|b|) <==> EndsOpen(b)
  {
    var all := b + [LF, LF];
    assert forall j :: 0 <= j < |b| ==> all[j] == b[j];
    assert DelimLen(all, |b|) == 2;
    if EndsOpen(b) {
      forall j: nat | j < |b| ensures DelimLen(all, j) == 0 {
        assert DelimLen(b, j) == 0;
      }
      FindUnique(all, |b|);
    } else {
      var j := if b[|b| - 1] == LF then |b| - 1 else |b| - 3;
      assert DelimLen(all, j) > 0;
      FindFirst(all, 0);
    }
  }

  // Finishing is what a closing blank line would have done: the pending bytes are taken as
  // one frame, with the same verdict, events and counters, and nothing is left.
  lemma {:induction false} FinishIsBlankLine(parse: Parser, s: State)
    requires NoDelim(s.buffer) && EndsOpen(s.buffer) && !Blank(s.buffer) && |s.buffer| <= MAX_FRAME
    ensures FinishResult(parse, s).Ok? <==> Drain(parse, s.buffer + [LF, LF], s.counters).Ok?
    ensures FinishResult(parse, s).Ok? ==>
              var d := Drain(parse, s.buffer + [LF, LF], s.counters).value;
              d.rest == [] && FinishResult(parse, s).value == Pushed(State([], 0, s.received, d.counters), d.events)
  {
    var b := s.buffer;
    ClosedByBlankLine(b);
    assert (b + [LF, LF])[..|b|] == b && (b + [LF, LF])[|b| + 2..] == [];
    var t := Take(parse, s.counters, b);
    if t.Ok? {
      assert t.value.events + [] == t.value.events;
    }
  }

  // So a whole response, however it was cut, gives the events and counters of draining the
  // stream closed by a blank line, whenever its last frame is pending and ends open.
  lemma {:induction false} ResponseIsDrain(parse: Parser, chunks: seq<seq<Byte>>)
    requires Run(parse, START, chunks).Ok?
    requires var b := Run(parse, START, chunks).value.state.buffer; EndsOpen(b) && !Blank(b) && |b| <= MAX_FRAME
    ensures var whole := Drain(parse, Concat(chunks) + [LF, LF], START.counters);
            && (Ended(parse, Run(parse, START, chunks)).Ok? <==> whole.Ok?)
            && (whole.Ok? ==>
                  && whole.value.rest == []
                  && Ended(parse, Run(parse, START, chunks)).value.events == whole.value.events
                  && Ended(parse, Run(parse, START, chunks)).value.state.counters == whole.value.counters)
  {
    var stream, pushed := Concat(chunks), Run(parse, START, chunks).value;
    ChunkingInvariance(parse, START, chunks);
    DrainedByPush(parse, stream, pushed);
    DrainAppend(parse, stream, [LF, LF], START.counters);
    FinishIsBlankLine(parse, pushed.state);
  }

  lemma {:induction false} DrainedByPush(parse: Parser, stream: seq<Byte>, pushed: Pushed)
    requires PushResult(parse, START, stream) == Ok(pushed)
    ensures NoDelim(pushed.state.buffer)
    ensures Drain(parse, stream, START.counters) ==
              Ok(Drained(pushed.state.buffer, pushed.state.counters, pushed.events))
  {
    assert START.buffer + stream == stream;
    FindNone([]);
    if stream != [] {
      DrainRest(parse, stream, START.counters);
    }
  }

  // ---------- The decoder ----------

  class Decoder {
    const parse: Parser
    var buffer: seq<Byte>
    var scanned: nat
    var received: nat
    var frames: nat
    var events: nat
    var ignored: nat
    var noncanonical: nat

    ghost function Model(): State
      reads this
    {
      State(buffer, scanned, received, Counters(frames, events, ignored, noncanonical))
    }

    constructor (parse: Parser)
      ensures this.parse == parse && Model() == START && Valid(Model())
    {
      this.parse := parse;
      buffer, scanned, received := [], 0, 0;
      frames, events, ignored, noncanonical := 0, 0, 0, 0;
    }

    // Records and parses one frame; on refusal the counters may be half updated.
    method TakeFrame(frame: seq<Byte>) returns (r: Result<seq<Event>, SseError>)
      modifies this
      ensures unchanged(`buffer) && unchanged(`scanned) && unchanged(`received)
      ensures r.Err? ==> Take(parse, old(Model().counters), frame) == Err(r.error)
      ensures r.Ok? ==> Take(parse, old(Model().counters), frame) == Ok(Taken(Model().counters, r.value))
    {
      if frames + 1 > U64_MAX {
        return Err(BadFrame);
      }
      frames := frames + 1;
      var info := parse(frame);
      if info.None? {
        return Err(BadFrame);
      }
      ignored := SatAdd(ignored, info.value.ignored);
      noncanonical := SatAdd(noncanonical, info.value.noncanonical);
      if info.value.event.None? {
        return Ok([]);
      }
      if events + 1 > MAX_EVENTS {
        return Err(EventLimit);
      }
      events := events + 1;
      return Ok([info.value.event.value]);
    }

    // One turn of the draining loop on the bytes not yet consumed: find the next delimiter
    // past the scanned ones, and take the frame before it. Yields how many bytes were used,
    // or None when no delimiter is left.
    method NextFrame(pending: seq<Byte>, skip: nat, ghost emitted: seq<Event>)
      returns (r: Result<Option<(nat, seq<Event>)>, SseError>)
      requires skip <= |pending| && NoneBefore(pending, skip)
      modifies this
      ensures unchanged(`buffer) && unchanged(`scanned) && unchanged(`received)
      ensures r.Err? ==> Drain(parse, pending, old(Model().counters)) == Err(r.error)
      ensures r == Ok(None) ==>
                Drain(parse, pending, old(Model().counters)) == Ok(Drained(pending, Model().counters, []))
      ensures r.Ok? && r.value.Some? ==> 0 < r.value.value.0 <= |pending|
      ensures r.Ok? && r.value.Some? ==>
                After(emitted, Drain(parse, pending, old(Model().counters)))
                == After(emitted + r.value.value.1, Drain(parse, pending[r.value.value.0..], Model().counters))
    {
      var found := FindSseDelimiter(pending[skip..]);
      FindShifts(pending, skip);
      if found.None? {
        return Ok(None);
      }
      var frameLen := skip + found.value.0;
      var used := frameLen + found.value.1;
      if frameLen > MAX_FRAME {
        return Err(FrameLimit);
      }
      var taken := TakeFrame(pending[..frameLen]);
      if taken.Err? {
        return Err(taken.error);
      }
      DrainFrame(parse, emitted, pending, old(Model().counters), frameLen, Taken(Model().counters, taken.value),
          pending[used..]);
      return Ok(Some((used, taken.value)));
    }

    // Scans from the saved offset only; everything before it is known to hold no delimiter.
    method ConsumeFrames() returns (r: Result<(nat, seq<Event>), SseError>)
      requires scanned <= |buffer| && NoneBefore(buffer, scanned)
      modifies this
      ensures unchanged(`buffer) && unchanged(`received)
      ensures r.Err? ==> Drain(parse, buffer, old(Model().counters)) == Err(r.error)
      ensures r.Ok? ==> r.value.0 <= |buffer|
      ensures r.Ok? ==>
                Drain(parse, buffer, old(Model().counters)) ==
                    Ok(Drained(buffer[r.value.0..], Model().counters, r.value.1))
    {
      var consumed: nat, scan: nat, emitted: seq<Event> := 0, scanned, [];
      ghost var whole := Drain(parse, buffer, Model().counters);
      ghost var pending := buffer;
      assert buffer[0..] == buffer;
      AfterNothing(whole);
      while true
        invariant unchanged(`buffer) && unchanged(`received)
        invariant consumed <= scan <= |buffer| && pending == buffer[consumed..]
        invariant NoneBefore(pending, scan - consumed)
        invariant whole == After(emitted, Drain(parse, pending, Model().counters))
        decreases |buffer| - consumed
      {
        var step := NextFrame(buffer[consumed..], scan - consumed, emitted);
        if step.Err? {
          return Err(step.error);
        }
        if step.value.None? {
          assert emitted + [] == emitted;
          return Ok((consumed, emitted));
        }
        var (used, events) := step.value.value;
        pending := pending[used..];
        assert pending == buffer[consumed + used..];
        emitted := emitted + events;
        consumed := consumed + used;
        scan := consumed;
      }
    }

    method DrainCompleteFrames() returns (r: Result<seq<Event>, SseError>)
      requires scanned <= |buffer| && NoneBefore(buffer, scanned)
      modifies this
      ensures unchanged(`received)
      ensures r.Err? ==> Drain(parse, old(buffer), old(Model().counters)) == Err(r.error)
      ensures r.Ok? ==>
                Drain(parse, old(buffer), old(Model().counters)) == Ok(Drained(buffer, Model().counters, r.value))
      ensures r.Ok? ==> scanned == ScanFrom(|buffer|)
    {
      var done := ConsumeFrames();
      if done.Err? {
        return Err(done.error);
      }
      var consumed := done.value.0;
      var kept := if |buffer| < MAX_DELIMITER - 1 then 0 else |buffer| - (MAX_DELIMITER - 1);
      scanned := (if kept < consumed then consumed else kept) - consumed;
      buffer := buffer[consumed..];
      return Ok(done.value.1);
    }

    // Appends bytes that fit, drains, and checks what is left.
    method AppendAndDrain(bytes: seq<Byte>) returns (r: Result<seq<Event>, SseError>)
      requires NoDelim(buffer) && scanned == ScanFrom(|buffer|)
      modifies this
      ensures unchanged(`received)
      ensures r.Err? ==> Settle(received, Drain(parse, old(buffer) + bytes, old(Model().counters))) == Err(r.error)
      ensures r.Ok? ==>
                Settle(received, Drain(parse, old(buffer) + bytes, old(Model().counters))) ==
                    Ok(Pushed(Model(), r.value))
    {
      StillScanned(buffer, bytes);
      buffer := buffer + bytes;
      r := DrainCompleteFrames();
      if r.Ok? && !PendingOk(buffer) {
        return Err(FrameLimit);
      }
    }

    // The append loop. The bytes fit the buffer, so it appends all of them in its first turn
    // and its buffer-full refusals are unreachable.
    method AppendInParts(bytes: seq<Byte>) returns (r: Result<seq<Event>, SseError>)
      requires NoDelim(buffer) && scanned == ScanFrom(|buffer|)
      requires bytes != [] ==> |buffer| < MAX_FRAME + MAX_DELIMITER
      requires |buffer| + |bytes| <= MAX_FRAME + MAX_DELIMITER
      modifies this
      ensures unchanged(`received)
      ensures bytes == [] ==> r == Ok([]) && Model() == old(Model())
      ensures bytes != [] && r.Err? ==>
                Settle(received, Drain(parse, old(buffer) + bytes, old(Model().counters))) == Err(r.error)
      ensures bytes != [] && r.Ok? ==>
                Settle(received, Drain(parse, old(buffer) + bytes, old(Model().counters))) ==
                    Ok(Pushed(Model(), r.value))
    {
      var emitted: seq<Event> := [];
      var left := bytes;
      while left != []
        invariant left == bytes || left == []
        invariant received == old(received)
        invariant left == bytes ==> Model() == old(Model()) && emitted == []
        invariant left == [] && bytes != [] ==>
                    Settle(received, Drain(parse, old(buffer) + bytes, old(Model().counters))) ==
                        Ok(Pushed(Model(), emitted))
      {
        var bufferLimit := MAX_FRAME + MAX_DELIMITER;
        if |buffer| > bufferLimit {
          return Err(FrameLimit);
        }
        var available := bufferLimit - |buffer|;
        if available == 0 {
          return Err(FrameLimit);
        }
        var appended := if available < |left| then available else |left|;
        assert left[..appended] == bytes;
        var drained := AppendAndDrain(left[..appended]);
        left := left[appended..];
        if drained.Err? {
          return Err(drained.error);
        }
        assert [] + drained.value == drained.value;
        emitted := emitted + drained.value;
      }
      return Ok(emitted);
    }

    method Push(bytes: seq<Byte>) returns (r: Result<seq<Event>, SseError>)
      requires Valid(Model())
      modifies this
      ensures r.Err? ==> PushResult(parse, old(Model()), bytes) == Err(r.error)
      ensures r.Ok? ==> PushResult(parse, old(Model()), bytes) == Ok(Pushed(Model(), r.value))
      ensures r.Ok? ==> Valid(Model()) && |buffer| - scanned <= 3
      ensures old(received) + |bytes| <= MAX_RESPONSE ==> |old(buffer)| + |bytes| <= MAX_FRAME + MAX_DELIMITER
    {
      if received + |bytes| > MAX_RESPONSE {
        return Err(ResponseLimit);
      }
      PushValidIfOk(parse, Model(), bytes);
      if bytes != [] {
        PushDrains(parse, Model(), bytes);
      }
      received := received + |bytes|;
      r := AppendInParts(bytes);
    }

    method Finish() returns (r: Result<seq<Event>, SseError>)
      modifies this
      ensures r.Err? ==> FinishResult(parse, old(Model())) == Err(r.error)
      ensures r.Ok? ==> FinishResult(parse, old(Model())) == Ok(Pushed(Model(), r.value))
    {
      scanned := 0;
      if |buffer| > MAX_FRAME {
        return Err(FrameLimit);
      }
      if Blank(buffer) {
        buffer := [];
        return Ok([]);
      }
      var frame := buffer;
      buffer := [];
      r := TakeFrame(frame);
    }
  }

  // What was scanned before stays free of delimiters when bytes are appended.
  lemma {:induction false} StillScanned(b: seq<Byte>, more: seq<Byte>)
    requires NoDelim(b)
    ensures NoneBefore(b + more, ScanFrom(|b|))
  {
    var all := b + more;
    assert forall j :: 0 <= j < |b| ==> all[j] == b[j];
    forall j: nat | j < ScanFrom(|b|)
      ensures DelimLen(all, j) == 0
    {
      assert DelimLen(b, j) == 0;
    }
  }

  // Searching past bytes that start no delimiter finds what searching them all would.
  lemma {:induction false} FindShifts(p: seq<Byte>, k: nat)
    requires k <= |p| && NoneBefore(p, k)
    ensures Find(p[k..], 0).None? <==> Find(p, 0).None?
    ensures Find(p[k..], 0).Some? ==>
              Find(p, 0) == Some(k + Find(p[k..], 0).value)
              && DelimLen(p[k..], Find(p[k..], 0).value) == DelimLen(p, k + Find(p[k..], 0).value)
  {
    var q := p[k..];
    forall j: nat
      ensures DelimLen(q, j) == DelimLen(p, k + j)
    {
    }
    var f := Find(q, 0);
    FindFirst(q, 0);
    if f.Some? {
      forall j: nat | j < k + f.value
        ensures DelimLen(p, j) == 0
      {
        if j >= k {
          assert DelimLen(q, j - k) == 0;
        }
      }
      FindUnique(p, k + f.value);
    } else {
      forall j: nat | j < |p|
        ensures DelimLen(p, j) == 0
      {
        if j >= k {
          assert DelimLen(q, j - k) == 0;
        }
      }
      FindNone(p);
    }
  }
}
