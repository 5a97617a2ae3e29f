/**
 What a whole server-sent-events response decodes to, told from its bytes alone: the frames
 between delimiters, the events they parse to, and where the first refusal comes.
 Source: crates/adaptors/src/wire.rs.
 */
module SseStream {
  import opened Wrappers
  import opened SseDecoder

  type Frame = seq<Byte>

  // ---------- The frames of a byte stream ----------

  // The stretches before each delimiter, in order.
  ghost function Cut(b: seq<Byte>): seq<Frame>
    decreases |b|
  {
    match Find(b, 0)
    case None => []
    case Some(i) => [b[..i]] + Cut(b[i + DelimLen(b, i)..])
  }

  // What follows the last delimiter.
  ghost function Tail(b: seq<Byte>): seq<Byte>
    decreases |b|
  {
    match Find(b, 0)
    case None => b
    case Some(i) => Tail(b[i + DelimLen(b, i)..])
  }

  // All frames of a response: an unterminated last one counts unless it is blank.
  ghost function Frames(b: seq<Byte>): seq<Frame> {
    Cut(b) + if Blank(Tail(b)) then [] else [Tail(b)]
  }

  // ---------- What frames parse to ----------

  ghost predicate Fine(parse: Parser, f: Frame) {
    |f| <= MAX_FRAME && parse(f).Some?
  }

  ghost predicate AllFine(parse: Parser, fs: seq<Frame>) {
    forall i :: 0 <= i < |fs| ==> Fine(parse, fs[i])
  }

  ghost function EventOf(parse: Parser, f: Frame): seq<Event> {
    if parse(f).Some? && parse(f).value.event.Some? then [parse(f).value.event.value] else []
  }

  ghost function EventsOf(parse: Parser, fs: seq<Frame>): seq<Event> {
    if fs == [] then [] else EventOf(parse, fs[0]) + EventsOf(parse, fs[1..])
  }

  ghost function IgnoredIn(parse: Parser, fs: seq<Frame>): nat {
    if fs == [] then 0
    else (if parse(fs[0]).Some? then parse(fs[0]).value.ignored else 0) + IgnoredIn(parse, fs[1..])
  }

  ghost function NoncanonicalIn(parse: Parser, fs: seq<Frame>): nat {
    if fs == [] then 0
    else (if parse(fs[0]).Some? then parse(fs[0]).value.noncanonical else 0) + NoncanonicalIn(parse, fs[1..])
  }

  // The counters are 64 bits wide.
  ghost predicate Wide(c: Counters) {
    c.frames <= U64_MAX && c.ignored <= U64_MAX && c.noncanonical <= U64_MAX
  }

  ghost predicate Accepts(parse: Parser, fs: seq<Frame>, c: Counters) {
    && AllFine(parse, fs)
    && c.frames + |fs| <= U64_MAX
    && (EventsOf(parse, fs) == [] || c.events + |EventsOf(parse, fs)| <= MAX_EVENTS)
  }

  ghost function Counted(parse: Parser, fs: seq<Frame>, c: Counters): Counters {
    Counters(c.frames + |fs|, c.events + |EventsOf(parse, fs)|, SatAdd(c.ignored, IgnoredIn(parse, fs)),
      SatAdd(c.noncanonical, NoncanonicalIn(parse, fs)))
  }

  // One frame in front of others.
  lemma {:induction false} ConsFrame(parse: Parser, f: Frame, fs: seq<Frame>)
    ensures AllFine(parse, [f] + fs) <==> Fine(parse, f) && AllFine(parse, fs)
    ensures EventsOf(parse, [f] + fs) == EventOf(parse, f) + EventsOf(parse, fs)
    ensures parse(f).Some? ==> IgnoredIn(parse, [f] + fs) == parse(f).value.ignored + IgnoredIn(parse, fs)
    ensures parse(f).Some? ==>
              NoncanonicalIn(parse, [f] + fs) == parse(f).value.noncanonical + NoncanonicalIn(parse, fs)
  {
    var all := [f] + fs;
    assert all[1..] == fs;
    if AllFine(parse, all) {
      assert forall i :: 0 <= i < |fs| ==> fs[i] == all[i + 1];
      assert Fine(parse, all[0]);
    }
  }

  lemma {:induction false} TakeFirst(parse: Parser, c: Counters, f: Frame, fs: seq<Frame>)
    requires Wide(c)
    ensures Accepts(parse, [f] + fs, c) <==>
              |f| <= MAX_FRAME && Take(parse, c, f).Ok? && Accepts(parse, fs, Take(parse, c, f).value.counters)
    ensures Take(parse, c, f).Ok? ==>
              var t := Take(parse, c, f).value;
              && Wide(t.counters) && t.events == EventOf(parse, f)
              && Counted(parse, fs, t.counters) == Counted(parse, [f] + fs, c)
  {
    ConsFrame(parse, f, fs);
  }

  // What draining does, said of the frames between delimiters: it accepts exactly when every
  // frame is short enough and parses, and the counts fit; its events are then those of the
  // frames in order, and each counter grew by what the frames contain.
  lemma {:induction false} DrainExact(parse: Parser, b: seq<Byte>, c: Counters)
    requires Wide(c)
    ensures Drain(parse, b, c).Ok? <==> Accepts(parse, Cut(b), c)
    ensures Drain(parse, b, c).Ok? ==>
              Drain(parse, b, c).value == Drained(Tail(b), Counted(parse, Cut(b), c), EventsOf(parse, Cut(b)))
    decreases |b|
  {
    if Find(b, 0).Some? {
      var i := Find(b, 0).value;
      var rest := b[i + DelimLen(b, i)..];
      TakeFirst(parse, c, b[..i], Cut(rest));
      ConsFrame(parse, b[..i], Cut(rest));
      if i <= MAX_FRAME && Take(parse, c, b[..i]).Ok? {
        DrainExact(parse, rest, Take(parse, c, b[..i]).value.counters);
      }
    }
  }

  // ---------- Where a refusal comes ----------

  // The frames before number k are accepted, and it is the one that is refused.
  ghost predicate RefusedAt(parse: Parser, fs: seq<Frame>, c: Counters, k: nat, e: SseError) {
    && k < |fs| && Accepts(parse, fs[..k], c)
    && e == RefusalOf(parse, fs[k], c.frames + k)
    && !Accepts(parse, fs[..k + 1], c)
  }

  ghost function RefusalOf(parse: Parser, f: Frame, frames: nat): SseError {
    if |f| > MAX_FRAME then FrameLimit
    else if frames == U64_MAX || parse(f).None? then BadFrame
    else EventLimit
  }

  lemma {:induction false} RefusedLater(
    parse: Parser, f: Frame, fs: seq<Frame>, c: Counters, k: nat, e: SseError)
    requires Wide(c) && |f| <= MAX_FRAME && Take(parse, c, f).Ok?
    requires RefusedAt(parse, fs, Take(parse, c, f).value.counters, k, e)
    ensures RefusedAt(parse, [f] + fs, c, k + 1, e)
  {
    var all := [f] + fs;
    assert all[..k + 1] == [f] + fs[..k] && all[..k + 2] == [f] + fs[..k + 1];
    TakeFirst(parse, c, f, fs[..k]);
    TakeFirst(parse, c, f, fs[..k + 1]);
    ConsFrame(parse, f, fs[..k]);
  }

  lemma {:induction false} RefusedFirst(parse: Parser, f: Frame, fs: seq<Frame>, c: Counters, e: SseError)
    requires Wide(c)
    requires if |f| > MAX_FRAME then e == FrameLimit else Take(parse, c, f) == Err(e)
    ensures RefusedAt(parse, [f] + fs, c, 0, e)
  {
    var all := [f] + fs;
    assert all[..0] == [] && all[..1] == [f] + [];
    TakeFirst(parse, c, f, []);
  }

  lemma {:induction false} DrainRefuses(parse: Parser, b: seq<Byte>, c: Counters) returns (k: nat)
    requires Wide(c) && Drain(parse, b, c).Err?
    ensures RefusedAt(parse, Cut(b), c, k, Drain(parse, b, c).error)
    decreases |b|
  {
    var i := Find(b, 0).value;
    var rest := b[i + DelimLen(b, i)..];
    var t := Take(parse, c, b[..i]);
    if i > MAX_FRAME || t.Err? {
      RefusedFirst(parse, b[..i], Cut(rest), c, Drain(parse, b, c).error);
      k := 0;
    } else {
      TakeFirst(parse, c, b[..i], []);
      var later := DrainRefuses(parse, rest, t.value.counters);
      RefusedLater(parse, b[..i], Cut(rest), c, later, Drain(parse, b, c).error);
      k := later + 1;
    }
  }

  lemma {:induction false} EventsCons(parse: Parser, f: Frame, fs: seq<Frame>)
    ensures EventsOf(parse, [f] + fs) == EventOf(parse, f) + EventsOf(parse, fs)
    ensures IgnoredIn(parse, [f] + fs) == IgnoredIn(parse, [f]) + IgnoredIn(parse, fs)
    ensures NoncanonicalIn(parse, [f] + fs) == NoncanonicalIn(parse, [f]) + NoncanonicalIn(parse, fs)
  {
    assert ([f] + fs)[1..] == fs && [f][1..] == [];
  }

  lemma {:induction false} SnocEvents(parse: Parser, fs: seq<Frame>, f: Frame)
    ensures EventsOf(parse, fs + [f]) == EventsOf(parse, fs) + EventOf(parse, f)
    ensures parse(f).Some? ==> IgnoredIn(parse, fs + [f]) == IgnoredIn(parse, fs) + parse(f).value.ignored
    ensures parse(f).Some? ==>
              NoncanonicalIn(parse, fs + [f]) == NoncanonicalIn(parse, fs) + parse(f).value.noncanonical
    decreases |fs|
  {
    if fs == [] {
      assert fs + [f] == [f] + [];
      ConsFrame(parse, f, []);
    } else {
      var rest := fs[1..];
      SnocEvents(parse, rest, f);
      assert fs + [f] == [fs[0]] + (rest + [f]) && fs == [fs[0]] + rest;
      EventsCons(parse, fs[0], rest);
      EventsCons(parse, fs[0], rest + [f]);
      assert EventOf(parse, fs[0]) + (EventsOf(parse, rest) + EventOf(parse, f))
          == EventOf(parse, fs[0]) + EventsOf(parse, rest) + EventOf(parse, f);
    }
  }

  lemma {:induction false} AcceptsPrefix(parse: Parser, fs: seq<Frame>, c: Counters, k: nat)
    requires Accepts(parse, fs, c) && k <= |fs|
    ensures Accepts(parse, fs[..k], c)
    decreases |fs| - k
  {
    if k == |fs| {
      assert fs[..k] == fs;
    } else {
      AcceptsPrefix(parse, fs, c, k + 1);
      assert fs[..k + 1] == fs[..k] + [fs[k]];
      SnocEvents(parse, fs[..k], fs[k]);
      forall i | 0 <= i < k ensures Fine(parse, fs[..k][i]) {
        assert Fine(parse, fs[..k + 1][i]);
      }
    }
  }

  // Exactly which refusal draining gives, and at which frame: the event limit, in
  // particular, refuses the first frame whose event would be number 65537.
  lemma {:induction false} RefusalExact(parse: Parser, b: seq<Byte>, c: Counters, e: SseError)
    requires Wide(c)
    ensures Drain(parse, b, c) == Err(e) <==> exists k: nat :: RefusedAt(parse, Cut(b), c, k, e)
  {
    DrainExact(parse, b, c);
    if Drain(parse, b, c).Err? {
      var k := DrainRefuses(parse, b, c);
      forall j: nat | RefusedAt(parse, Cut(b), c, j, e) ensures j == k {
        RefusedOnce(parse, Cut(b), c, j, k);
      }
    } else {
      forall j: nat ensures !RefusedAt(parse, Cut(b), c, j, e) {
        if j < |Cut(b)| {
          AcceptsPrefix(parse, Cut(b), c, j + 1);
        }
      }
    }
  }

  lemma {:induction false} RefusedOnce(parse: Parser, fs: seq<Frame>, c: Counters, j: nat, k: nat)
    requires j < |fs| && k < |fs|
    requires Accepts(parse, fs[..j], c) && !Accepts(parse, fs[..j + 1], c)
    requires Accepts(parse, fs[..k], c) && !Accepts(parse, fs[..k + 1], c)
    ensures j == k
  {
    if j < k {
      assert fs[..k][..j + 1] == fs[..j + 1];
      AcceptsPrefix(parse, fs[..k], c, j + 1);
    } else if k < j {
      assert fs[..j][..k + 1] == fs[..k + 1];
      AcceptsPrefix(parse, fs[..j], c, k + 1);
    }
  }

  lemma {:induction false} EventLimitExact(parse: Parser, fs: seq<Frame>, c: Counters, k: nat)
    requires c.events <= MAX_EVENTS
    ensures RefusedAt(parse, fs, c, k, EventLimit) <==>
              && k < |fs| && Accepts(parse, fs[..k], c) && Fine(parse, fs[k]) && c.frames + k < U64_MAX
              && EventOf(parse, fs[k]) != [] && c.events + |EventsOf(parse, fs[..k])| == MAX_EVENTS
  {
    if k < |fs| {
      assert fs[..k + 1] == fs[..k] + [fs[k]];
      SnocEvents(parse, fs[..k], fs[k]);
      if Accepts(parse, fs[..k], c) {
        SnocFine(parse, fs[..k], fs[k]);
      }
    }
  }

  lemma {:induction false} SnocFine(parse: Parser, fs: seq<Frame>, f: Frame)
    ensures AllFine(parse, fs + [f]) <==> AllFine(parse, fs) && Fine(parse, f)
  {
    var all := fs + [f];
    if AllFine(parse, all) {
      assert forall i :: 0 <= i < |fs| ==> fs[i] == all[i];
      assert Fine(parse, all[|fs|]);
    }
  }

  // ---------- Whole responses ----------

  lemma {:induction false} TakeLast(parse: Parser, c: Counters, fs: seq<Frame>, f: Frame)
    requires Wide(c) && Accepts(parse, fs, c) && |f| <= MAX_FRAME
    ensures Take(parse, Counted(parse, fs, c), f).Ok? <==> Accepts(parse, fs + [f], c)
    ensures Accepts(parse, fs + [f], c) ==>
              Take(parse, Counted(parse, fs, c), f) ==
                Ok(Taken(Counted(parse, fs + [f], c), EventOf(parse, f)))
  {
    SnocEvents(parse, fs, f);
    SnocFine(parse, fs, f);
  }

  ghost predicate ResponseOk(parse: Parser, stream: seq<Byte>) {
    |stream| <= MAX_RESPONSE && |Tail(stream)| <= MAX_FRAME && Accepts(parse, Frames(stream), START.counters)
  }

  lemma {:induction false} PushExact(parse: Parser, stream: seq<Byte>)
    ensures PushResult(parse, START, stream).Ok? <==>
              |stream| <= MAX_RESPONSE && Accepts(parse, Cut(stream), START.counters) && PendingOk(Tail(stream))
    ensures PushResult(parse, START, stream).Ok? ==>
              PushResult(parse, START, stream).value ==
                Pushed(State(Tail(stream), ScanFrom(|Tail(stream)|), |stream|,
                    Counted(parse, Cut(stream), START.counters)), EventsOf(parse, Cut(stream)))
  {
    assert START.buffer + stream == stream;
    DrainExact(parse, stream, START.counters);
  }

  // A whole response, however it is cut into pushes, is accepted exactly when it is within
  // the limits and every frame parses; its events are then those of its frames, in order, and
  // its counters count them.
  lemma {:induction false} ResponseExact(parse: Parser, chunks: seq<seq<Byte>>)
    ensures var stream, r := Concat(chunks), Ended(parse, Run(parse, START, chunks));
            && (r.Ok? <==> ResponseOk(parse, stream))
            && (r.Ok? ==> r.value.events == EventsOf(parse, Frames(stream)))
            && (r.Ok? ==>
                  r.value.state == State([], 0, |stream|, Counted(parse, Frames(stream), START.counters)))
  {
    var stream := Concat(chunks);
    ChunkingInvariance(parse, START, chunks);
    PushExact(parse, stream);
    var fs, tail := Cut(stream), Tail(stream);
    if Accepts(parse, fs, START.counters) {
      if |tail| <= MAX_FRAME {
        TakeLast(parse, START.counters, fs, tail);
        SnocEvents(parse, fs, tail);
      }
    } else if Accepts(parse, fs + [tail], START.counters) {
      assert (fs + [tail])[..|fs|] == fs;
      AcceptsPrefix(parse, fs + [tail], START.counters, |fs|);
    }
    assert fs + [] == fs;
    assert EventsOf(parse, fs) + [] == EventsOf(parse, fs);
  }
}
