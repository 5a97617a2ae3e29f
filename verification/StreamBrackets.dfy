/**
 Rendering canonical output events as a bracketed stream of content blocks. The stream is
 judged by a reference acceptor that reads only the emitted events.
 Source: crates/adaptors/src/anthropic.rs.
 */
module StreamBrackets {
  import opened Wrappers

  const USIZE_MAX: nat := 0xFFFF_FFFF_FFFF_FFFF

  datatype Kind = Text | Thinking | Tool

  datatype StopReason = EndOfText | StopSequence | Cancelled | MaxOutputTokens | ToolCallStop

  datatype Tokens = Tokens(input: Option<nat>, output: Option<nat>)

  datatype Event =
    | TextDelta(reasoning: bool, text: string)
    | StructuredDelta(text: string)
    | AdaptorSpecific
    | ToolStart(index: nat, id: Option<string>, name: string)
    | ToolArguments(index: nat, json: string)
    | ToolEnd(index: nat)
    | Usage(tokens: Tokens)
    | Provenance
    | Error(message: string, code: Option<string>)
    | Finished(reason: StopReason, final: Option<Tokens>)

  // The id and name a tool block starts with.
  datatype ToolHead = ToolHead(id: string, name: string)

  // The stop reasons and the error code as the wire spells them.
  datatype StopText = EndTurn | MaxTokens | ToolUse
  datatype ErrorCode = InvalidRequestError | Named(code: string)

  // What a client sees. A delta carries the kind of block it belongs to.
  datatype Wire =
    | BlockStart(index: nat, kind: Kind, tool: Option<ToolHead>)
    | BlockDelta(index: nat, kind: Kind, text: string)
    | BlockStop(index: nat)
    | ErrorMessage(code: ErrorCode, message: string)
    | MessageDelta(reason: StopText, input: nat, output: nat)
    | MessageStop

  datatype OpenBlock = OpenBlock(index: nat, kind: Kind)
  datatype ToolCall = ToolCall(parser: nat, block: nat)

  datatype State = State(next: nat, open: Option<OpenBlock>, calls: seq<ToolCall>, usage: Option<Tokens>)

  const FRESH := State(0, None, [], None)

  function Least(a: nat, b: nat): nat {
    if a < b then a else b
  }

  // ---------- The renderer ----------

  function Bump(n: nat): nat {
    if n < USIZE_MAX then n + 1 else n
  }

  function Closed(s: State): seq<Wire> {
    if s.open.Some? then [BlockStop(s.open.value.index)] else []
  }

  function Opened(s: State, kind: Kind): State {
    s.(next := Bump(s.next), open := Some(OpenBlock(s.next, kind)))
  }

  function FindCall(calls: seq<ToolCall>, p: nat): Option<nat> {
    if calls == [] then None
    else if calls[0].parser == p then Some(calls[0].block)
    else FindCall(calls[1..], p)
  }

  function DropCall(calls: seq<ToolCall>, p: nat): seq<ToolCall> {
    if calls == [] then []
    else (if calls[0].parser == p then [] else [calls[0]]) + DropCall(calls[1..], p)
  }

  function RenderText(s: State, kind: Kind, text: string): (State, seq<Wire>) {
    if s.open.Some? && s.open.value.kind == kind then (s, [BlockDelta(s.open.value.index, kind, text)])
    else (Opened(s, kind), Closed(s) + [BlockStart(s.next, kind, None), BlockDelta(s.next, kind, text)])
  }

  function RenderToolStart(s: State, p: nat, id: Option<string>, name: string): (State, Option<seq<Wire>>) {
    if id.None? || FindCall(s.calls, p).Some? then (s, None)
    else
      (Opened(s, Tool).(calls := s.calls + [ToolCall(p, s.next)]),
        Some(Closed(s) + [BlockStart(s.next, Tool, Some(ToolHead(id.value, name)))]))
  }

  // The call is forgotten even when its block is not the open one and an error results.
  function RenderToolEnd(s: State, p: nat): (State, Option<seq<Wire>>) {
    match FindCall(s.calls, p)
    case None => (s, None)
    case Some(block) =>
      var t := s.(calls := DropCall(s.calls, p));
      if s.open == Some(OpenBlock(block, Tool)) then (t.(open := None), Some(Closed(s))) else (t, None)
  }

  function ErrorWire(message: string, code: Option<string>): Wire {
    ErrorMessage(if code.Some? then Named(code.value) else InvalidRequestError, message)
  }

  function WireReason(reason: StopReason): StopText {
    match reason
    case MaxOutputTokens => MaxTokens
    case ToolCallStop => ToolUse
    case _ => EndTurn
  }

  function Figure(n: Option<nat>): nat {
    if n.Some? then n.value else 0
  }

  function FinalWire(reason: StopReason, usage: Option<Tokens>): Wire {
    var tokens := if usage.Some? then usage.value else Tokens(None, None);
    MessageDelta(WireReason(reason), Figure(tokens.input), Figure(tokens.output))
  }

  function Render(s: State, e: Event): (State, Option<seq<Wire>>) {
    match e
    case TextDelta(reasoning, text) =>
      var r := RenderText(s, if reasoning then Thinking else Text, text); (r.0, Some(r.1))
    case StructuredDelta(text) =>
      var r := RenderText(s, Text, text); (r.0, Some(r.1))
    case AdaptorSpecific => (s, None)
    case ToolStart(p, id, name) => RenderToolStart(s, p, id, name)
    case ToolArguments(p, json) =>
      (s, match FindCall(s.calls, p) case None => None case Some(block) => Some([BlockDelta(block, Tool, json)]))
    case ToolEnd(p) => RenderToolEnd(s, p)
    case Usage(tokens) => (s.(usage := Some(tokens)), Some([]))
    case Provenance => (s, Some([]))
    case Error(message, code) => (s.(open := None), Some(Closed(s) + [ErrorWire(message, code)]))
    case Finished(reason, final) =>
      var usage := if final.Some? then final else s.usage;
      (s.(open := None, usage := usage), Some(Closed(s) + [FinalWire(reason, usage), MessageStop]))
  }

  function After(events: seq<Event>): State {
    if events == [] then FRESH else Render(After(events[..|events| - 1]), events[|events| - 1]).0
  }

  function Emitted(r: Option<seq<Wire>>): seq<Wire> {
    if r.Some? then r.value else []
  }

  // Everything emitted, a rendering error emitting nothing.
  function Log(events: seq<Event>): seq<Wire> {
    if events == [] then []
    else Log(events[..|events| - 1]) + Emitted(Render(After(events[..|events| - 1]), events[|events| - 1]).1)
  }

  // ---------- The reference acceptor ----------

  // `started` holds the kind of every block begun so far, in order.
  datatype Reading = Reading(ok: bool, open: Option<OpenBlock>, started: seq<Kind>)

  const NOTHING := Reading(true, None, [])

  predicate ToolBlock(started: seq<Kind>, block: nat) {
    exists j :: 0 <= j < |started| && started[j] == Tool && block == Least(j, USIZE_MAX)
  }

  // Blocks begin with indices 0, 1, 2, ... while none is open; a stop ends the open block;
  // a text or thinking delta names the open block and its kind; an argument delta names a
  // tool block begun earlier; messages come while nothing is open.
  predicate Fits(r: Reading, w: Wire) {
    match w
    case BlockStart(i, k, _) => r.open.None? && i == Least(|r.started|, USIZE_MAX)
    case BlockStop(i) => r.open.Some? && r.open.value.index == i
    case BlockDelta(i, k, _) =>
      if k == Tool then ToolBlock(r.started, i) else r.open == Some(OpenBlock(i, k))
    case _ => r.open.None?
  }

  function Read(r: Reading, w: Wire): Reading {
    if !r.ok || !Fits(r, w) then r.(ok := false)
    else
      match w
      case BlockStart(i, k, _) => Reading(true, Some(OpenBlock(i, k)), r.started + [k])
      case BlockStop(_) => r.(open := None)
      case _ => r
  }

  function ReadAll(r: Reading, ws: seq<Wire>): Reading {
    if ws == [] then r else Read(ReadAll(r, ws[..|ws| - 1]), ws[|ws| - 1])
  }

  lemma {:induction false} ReadAppend(r: Reading, a: seq<Wire>, b: seq<Wire>)
    ensures ReadAll(r, a + b) == ReadAll(ReadAll(r, a), b)
    decreases |b|
  {
    if b == [] {
      assert a + b == a;
    } else {
      ReadAppend(r, a, b[..|b| - 1]);
      assert (a + b)[..|a + b| - 1] == a + b[..|b| - 1];
    }
  }

  lemma {:induction false} ReadOne(r: Reading, a: seq<Wire>, w: Wire)
    ensures ReadAll(r, a + [w]) == Read(ReadAll(r, a), w)
  {
    assert (a + [w])[..|a|] == a;
  }

  // ---------- The renderer is bracketed ----------

  ghost predicate CallsOk(calls: seq<ToolCall>, started: seq<Kind>) {
    && (forall i, j :: 0 <= i < j < |calls| ==> calls[i].parser != calls[j].parser)
    && (forall i :: 0 <= i < |calls| ==> ToolBlock(started, calls[i].block))
  }

  ghost predicate Agrees(s: State, r: Reading) {
    r.ok && r.open == s.open && s.next == Least(|r.started|, USIZE_MAX) && CallsOk(s.calls, r.started)
  }

  lemma {:induction false} FoundCall(calls: seq<ToolCall>, p: nat)
    ensures FindCall(calls, p).None? <==> forall i :: 0 <= i < |calls| ==> calls[i].parser != p
    ensures FindCall(calls, p).Some? ==> ToolCall(p, FindCall(calls, p).value) in calls
    decreases |calls|
  {
    if calls != [] {
      FoundCall(calls[1..], p);
      assert calls == [calls[0]] + calls[1..];
    }
  }

  lemma {:induction false} DroppedCall(calls: seq<ToolCall>, p: nat, started: seq<Kind>)
    requires CallsOk(calls, started)
    ensures CallsOk(DropCall(calls, p), started)
    ensures forall c :: c in DropCall(calls, p) <==> c in calls && c.parser != p
    decreases |calls|
  {
    if calls != [] {
      DroppedCall(calls[1..], p, started);
      assert calls == [calls[0]] + calls[1..];
      var rest := DropCall(calls[1..], p);
      forall i | 0 <= i < |rest| ensures rest[i].parser != calls[0].parser {
        assert rest[i] in rest;
      }
    }
  }

  lemma {:induction false} ReadClosed(s: State, r: Reading)
    requires Agrees(s, r)
    ensures ReadAll(r, Closed(s)) == r.(open := None)
  {
    if s.open.Some? {
      assert [] + Closed(s) == Closed(s);
      ReadOne(r, [], BlockStop(s.open.value.index));
    }
  }

  lemma {:induction false} ReadOpened(s: State, r: Reading, kind: Kind, tool: Option<ToolHead>)
    requires Agrees(s, r)
    ensures ReadAll(r, Closed(s) + [BlockStart(s.next, kind, tool)]) ==
        Reading(true, Some(OpenBlock(s.next, kind)), r.started + [kind])
  {
    ReadClosed(s, r);
    ReadOne(r, Closed(s), BlockStart(s.next, kind, tool));
  }

  lemma {:induction false} ToolBlockGrows(started: seq<Kind>, kind: Kind, block: nat)
    requires ToolBlock(started, block)
    ensures ToolBlock(started + [kind], block)
  {
    var j :| 0 <= j < |started| && started[j] == Tool && block == Least(j, USIZE_MAX);
    assert (started + [kind])[j] == Tool;
  }

  lemma {:induction false} CallsGrow(calls: seq<ToolCall>, started: seq<Kind>, kind: Kind)
    requires CallsOk(calls, started)
    ensures CallsOk(calls, started + [kind])
  {
    forall i | 0 <= i < |calls| ensures ToolBlock(started + [kind], calls[i].block) {
      ToolBlockGrows(started, kind, calls[i].block);
    }
  }

  lemma {:induction false} TextOpens(s: State, r: Reading, kind: Kind, text: string)
    requires Agrees(s, r) && kind != Tool
    ensures ReadAll(r, Closed(s) + [BlockStart(s.next, kind, None), BlockDelta(s.next, kind, text)]) ==
              Reading(true, Some(OpenBlock(s.next, kind)), r.started + [kind])
  {
    var start, delta := BlockStart(s.next, kind, None), BlockDelta(s.next, kind, text);
    ReadOpened(s, r, kind, None);
    assert Closed(s) + [start, delta] == Closed(s) + [start] + [delta];
    ReadOne(r, Closed(s) + [start], delta);
  }

  lemma {:induction false} TextReads(s: State, r: Reading, kind: Kind, text: string)
    requires Agrees(s, r) && kind != Tool
    ensures Agrees(RenderText(s, kind, text).0, ReadAll(r, RenderText(s, kind, text).1))
  {
    if s.open.Some? && s.open.value.kind == kind {
      var w := BlockDelta(s.open.value.index, kind, text);
      assert [] + [w] == [w];
      ReadOne(r, [], w);
    } else {
      TextOpens(s, r, kind, text);
      CallsGrow(s.calls, r.started, kind);
    }
  }

  lemma {:induction false} CallAdded(s: State, r: Reading, p: nat)
    requires Agrees(s, r) && FindCall(s.calls, p).None?
    ensures CallsOk(s.calls + [ToolCall(p, s.next)], r.started + [Tool])
  {
    FoundCall(s.calls, p);
    CallsGrow(s.calls, r.started, Tool);
    assert (r.started + [Tool])[|r.started|] == Tool;
    assert ToolBlock(r.started + [Tool], s.next);
  }

  lemma {:induction false} ToolStartReads(s: State, r: Reading, p: nat, id: Option<string>, name: string)
    requires Agrees(s, r)
    ensures Agrees(RenderToolStart(s, p, id, name).0, ReadAll(r, Emitted(RenderToolStart(s, p, id, name).1)))
  {
    if id.Some? && FindCall(s.calls, p).None? {
      ReadOpened(s, r, Tool, Some(ToolHead(id.value, name)));
      CallAdded(s, r, p);
    }
  }

  lemma {:induction false} ArgumentsRead(s: State, r: Reading, p: nat, json: string)
    requires Agrees(s, r)
    ensures Agrees(s, ReadAll(r, Emitted(Render(s, ToolArguments(p, json)).1)))
  {
    FoundCall(s.calls, p);
    if FindCall(s.calls, p).Some? {
      var w := BlockDelta(FindCall(s.calls, p).value, Tool, json);
      assert ToolBlock(r.started, w.index);
      assert [] + [w] == [w];
      ReadOne(r, [], w);
    }
  }

  lemma {:induction false} MessageReads(r: Reading, w: Wire)
    requires r.ok && r.open.None? && (w.ErrorMessage? || w.MessageDelta? || w.MessageStop?)
    ensures Read(r, w) == r
  {
  }

  lemma {:induction false} MessagesRead(s: State, r: Reading, w: Wire)
    requires Agrees(s, r) && (w.ErrorMessage? || w.MessageDelta?)
    ensures ReadAll(r, Closed(s) + [w]) == r.(open := None)
    ensures ReadAll(r, Closed(s) + [w, MessageStop]) == r.(open := None)
  {
    var closed := r.(open := None);
    ReadClosed(s, r);
    ReadOne(r, Closed(s), w);
    MessageReads(closed, w);
    assert Closed(s) + [w, MessageStop] == Closed(s) + [w] + [MessageStop];
    ReadOne(r, Closed(s) + [w], MessageStop);
    MessageReads(closed, MessageStop);
  }

  lemma {:induction false} ToolEndReads(s: State, r: Reading, p: nat)
    requires Agrees(s, r)
    ensures Agrees(RenderToolEnd(s, p).0, ReadAll(r, Emitted(RenderToolEnd(s, p).1)))
  {
    DroppedCall(s.calls, p, r.started);
    ReadClosed(s, r);
  }

  lemma {:induction false} ClosingReads(s: State, r: Reading, e: Event)
    requires Agrees(s, r) && (e.Error? || e.Finished?)
    ensures Agrees(Render(s, e).0, ReadAll(r, Emitted(Render(s, e).1)))
  {
    if e.Error? {
      MessagesRead(s, r, ErrorWire(e.message, e.code));
    } else {
      MessagesRead(s, r, FinalWire(e.reason, if e.final.Some? then e.final else s.usage));
    }
  }

  // One event: what it emits is accepted, and the acceptor ends in the renderer's state.
  lemma {:induction false} EventReads(s: State, r: Reading, e: Event)
    requires Agrees(s, r)
    ensures Agrees(Render(s, e).0, ReadAll(r, Emitted(Render(s, e).1)))
  {
    match e
    case TextDelta(reasoning, text) => TextReads(s, r, if reasoning then Thinking else Text, text);
    case StructuredDelta(text) => TextReads(s, r, Text, text);
    case ToolStart(p, id, name) => ToolStartReads(s, r, p, id, name);
    case ToolArguments(p, json) => ArgumentsRead(s, r, p, json);
    case ToolEnd(p) => ToolEndReads(s, r, p);
    case Error(_, _) => ClosingReads(s, r, e);
    case Finished(_, _) => ClosingReads(s, r, e);
    case _ => assert Emitted(Render(s, e).1) == [];
  }

  // Over every event sequence, rendering errors included, the emitted stream is well
  // bracketed, and the renderer's open block is the one the stream leaves open.
  lemma {:induction false} Bracketed(events: seq<Event>)
    ensures Agrees(After(events), ReadAll(NOTHING, Log(events)))
  {
    if events != [] {
      var front, e := events[..|events| - 1], events[|events| - 1];
      Bracketed(front);
      EventReads(After(front), ReadAll(NOTHING, Log(front)), e);
      ReadAppend(NOTHING, Log(front), Emitted(Render(After(front), e).1));
    }
  }

  lemma {:induction false} NothingOpenAtEnd(events: seq<Event>)
    requires events != [] && (events[|events| - 1].Error? || events[|events| - 1].Finished?)
    ensures After(events).open.None? && ReadAll(NOTHING, Log(events)).open.None?
  {
    Bracketed(events);
  }

  lemma {:induction false} ParsersUnique(events: seq<Event>, i: nat, j: nat)
    requires i < j < |After(events).calls|
    ensures After(events).calls[i].parser != After(events).calls[j].parser
  {
    Bracketed(events);
  }

  // ---------- What acceptance means ----------

  function Starts(ws: seq<Wire>): seq<nat> {
    if ws == [] then []
    else Starts(ws[..|ws| - 1]) + if ws[|ws| - 1].BlockStart? then [ws[|ws| - 1].index] else []
  }

  function Stops(ws: seq<Wire>): seq<nat> {
    if ws == [] then []
    else Stops(ws[..|ws| - 1]) + if ws[|ws| - 1].BlockStop? then [ws[|ws| - 1].index] else []
  }

  // An accepted stream starts blocks 0, 1, 2, ... and stops them in that order, at most
  // one of them being unstopped.
  lemma {:induction false} AcceptedMeans(ws: seq<Wire>)
    requires ReadAll(NOTHING, ws).ok
    ensures forall k :: 0 <= k < |Starts(ws)| ==> Starts(ws)[k] == Least(k, USIZE_MAX)
    ensures Stops(ws) <= Starts(ws)
    ensures |Starts(ws)| == |ReadAll(NOTHING, ws).started|
    ensures |Starts(ws)| - |Stops(ws)| == if ReadAll(NOTHING, ws).open.Some? then 1 else 0
    ensures ReadAll(NOTHING, ws).open.Some? ==>
              Starts(ws)[|Starts(ws)| - 1] == ReadAll(NOTHING, ws).open.value.index
    decreases |ws|
  {
    if ws != [] {
      AcceptedMeans(ws[..|ws| - 1]);
    }
  }

  lemma {:induction false} AcceptedPrefix(ws: seq<Wire>, n: nat)
    requires ReadAll(NOTHING, ws).ok && n <= |ws|
    ensures ReadAll(NOTHING, ws[..n]).ok
    decreases |ws|
  {
    if n == |ws| {
      assert ws[..n] == ws;
    } else {
      assert ws[..|ws| - 1][..n] == ws[..n];
      AcceptedPrefix(ws[..|ws| - 1], n);
    }
  }

  // At every moment of a stream: blocks have started as 0, 1, 2, ..., and all but at most
  // the last have been stopped, once and in order.
  ghost predicate Shape(seen: seq<Wire>) {
    && (forall k :: 0 <= k < |Starts(seen)| ==> Starts(seen)[k] == Least(k, USIZE_MAX))
    && Stops(seen) <= Starts(seen) && |Starts(seen)| <= |Stops(seen)| + 1
  }

  // A block starts only when every earlier one is stopped, a text or thinking delta names
  // the one block that is open, and the closing messages come when none is.
  ghost predicate Order(seen: seq<Wire>, w: Wire) {
    && (w.BlockStart? || w.ErrorMessage? || w.MessageDelta? || w.MessageStop? ==> Stops(seen) == Starts(seen))
    && (w.BlockStop? || (w.BlockDelta? && w.kind != Tool) ==>
          |Starts(seen)| == |Stops(seen)| + 1 && w.index == Starts(seen)[|Starts(seen)| - 1])
  }

  lemma {:induction false} AcceptedNext(ws: seq<Wire>, w: Wire)
    requires ReadAll(NOTHING, ws + [w]).ok
    ensures Order(ws, w)
  {
    ReadOne(NOTHING, ws, w);
    AcceptedMeans(ws);
  }

  lemma {:induction false} AcceptedShape(ws: seq<Wire>, n: nat)
    requires ReadAll(NOTHING, ws).ok && n <= |ws|
    ensures Shape(ws[..n]) && (n < |ws| ==> Order(ws[..n], ws[n]))
  {
    AcceptedPrefix(ws, n);
    AcceptedMeans(ws[..n]);
    if n < |ws| {
      AcceptedPrefix(ws, n + 1);
      assert ws[..n + 1] == ws[..n] + [ws[n]];
      AcceptedNext(ws[..n], ws[n]);
    }
  }

  // The whole claim, for every event sequence and every moment of the stream it renders.
  lemma {:induction false} StreamShape(events: seq<Event>, n: nat)
    requires n <= |Log(events)|
    ensures Shape(Log(events)[..n])
    ensures n < |Log(events)| ==> Order(Log(events)[..n], Log(events)[n])
  {
    Bracketed(events);
    AcceptedShape(Log(events), n);
  }

  // ---------- Argument deltas ----------

  // The tool block with this index is the open one.
  predicate Holding(s: State, block: nat) {
    s.open == Some(OpenBlock(block, Tool))
  }

  // The events that close the open block. A tool end closes it when it ends the call that
  // the open block belongs to.
  predicate Disturbs(s: State, e: Event) {
    || e.StructuredDelta? || e.TextDelta? || e.Error? || e.Finished?
    || (e.ToolStart? && e.id.Some? && FindCall(s.calls, e.index).None?)
    || (e.ToolEnd? && FindCall(s.calls, e.index).Some? && Holding(s, FindCall(s.calls, e.index).value))
  }

  // No event of `between` disturbs the state that `done` left.
  ghost predicate Undisturbed(done: seq<Event>, between: seq<Event>) {
    forall i :: 0 <= i < |between| ==> !Disturbs(After(done + between[..i]), between[i])
  }

  lemma {:induction false} DroppedFind(calls: seq<ToolCall>, p: nat, q: nat)
    ensures FindCall(DropCall(calls, q), p) == if p == q then None else FindCall(calls, p)
    decreases |calls|
  {
    if calls != [] {
      DroppedFind(calls[1..], p, q);
      var rest := DropCall(calls[1..], q);
      assert [] + rest == rest && ([calls[0]] + rest)[1..] == rest;
    }
  }

  lemma {:induction false} AddedFind(calls: seq<ToolCall>, p: nat, c: ToolCall)
    requires FindCall(calls, c.parser).None?
    ensures FindCall(calls + [c], p) == if p == c.parser then Some(c.block) else FindCall(calls, p)
    decreases |calls|
  {
    if calls == [] {
      assert [] + [c] == [c];
    } else {
      AddedFind(calls[1..], p, c);
      assert (calls + [c])[1..] == calls[1..] + [c];
    }
  }

  // Below saturation the known calls have blocks of their own.
  ghost predicate Roomy(s: State) {
    && s.next < USIZE_MAX
    && (forall c :: c in s.calls ==> c.block < s.next)
    && (forall c, d :: c in s.calls && d in s.calls && c.block == d.block ==> c == d)
  }

  lemma {:induction false} DroppedMembers(calls: seq<ToolCall>, p: nat, c: ToolCall)
    ensures c in DropCall(calls, p) <==> c in calls && c.parser != p
    decreases |calls|
  {
    if calls != [] {
      DroppedMembers(calls[1..], p, c);
      assert calls == [calls[0]] + calls[1..];
    }
  }

  lemma {:induction false} RoomyStep(s: State, e: Event)
    requires (s.next < USIZE_MAX ==> Roomy(s)) && Render(s, e).0.next < USIZE_MAX
    ensures Roomy(Render(s, e).0) && s.next <= Render(s, e).0.next
  {
    if e.ToolEnd? {
      forall c ensures c in DropCall(s.calls, e.index) <==> c in s.calls && c.parser != e.index {
        DroppedMembers(s.calls, e.index, c);
      }
    }
  }

  lemma {:induction false} RoomyRun(events: seq<Event>)
    requires After(events).next < USIZE_MAX
    ensures Roomy(After(events))
    decreases |events|
  {
    if events != [] {
      var front := events[..|events| - 1];
      if After(front).next < USIZE_MAX {
        RoomyRun(front);
      }
      RoomyStep(After(front), events[|events| - 1]);
    }
  }

  // One event other than the call's end: the call keeps its block, which stays open if the
  // event does not disturb it, and below saturation only then.
  lemma {:induction false} CallStep(s: State, e: Event, p: nat, block: nat)
    requires FindCall(s.calls, p) == Some(block) && e != ToolEnd(p)
    ensures FindCall(Render(s, e).0.calls, p) == Some(block)
    ensures Holding(s, block) && !Disturbs(s, e) ==> Holding(Render(s, e).0, block)
    ensures Roomy(s) && Holding(Render(s, e).0, block) ==> Holding(s, block) && !Disturbs(s, e)
  {
    FoundCall(s.calls, p);
    match e
    case ToolStart(q, id, name) =>
      if id.Some? && FindCall(s.calls, q).None? {
        AddedFind(s.calls, p, ToolCall(q, s.next));
      }
    case ToolEnd(q) =>
      DroppedFind(s.calls, p, q);
      FoundCall(s.calls, q);
    case _ =>
  }

  lemma {:induction false} AfterSnoc(events: seq<Event>, e: Event)
    ensures After(events + [e]) == Render(After(events), e).0
  {
    assert (events + [e])[..|events|] == events;
  }

  lemma {:induction false} CallRun(done: seq<Event>, between: seq<Event>, p: nat, block: nat)
    requires FindCall(After(done).calls, p) == Some(block) && Holding(After(done), block)
    requires ToolEnd(p) !in between
    ensures FindCall(After(done + between).calls, p) == Some(block)
    ensures Undisturbed(done, between) ==> Holding(After(done + between), block)
    ensures After(done + between).next < USIZE_MAX && Holding(After(done + between), block) ==>
        Undisturbed(done, between)
    decreases |between|
  {
    if between == [] {
      assert done + between == done;
    } else {
      var front, e := between[..|between| - 1], between[|between| - 1];
      assert done + between == done + front + [e];
      assert between == front + [e];
      AfterSnoc(done + front, e);
      NextGrows(After(done + front), e);
      CallRun(done, front, p, block);
      if After(done + front).next < USIZE_MAX {
        RoomyRun(done + front);
      }
      CallStep(After(done + front), e, p, block);
      UndisturbedSnoc(done, front, e);
    }
  }

  lemma {:induction false} NextGrows(s: State, e: Event)
    ensures s.next <= Render(s, e).0.next
  {
  }

  lemma {:induction false} UndisturbedSnoc(done: seq<Event>, front: seq<Event>, e: Event)
    ensures Undisturbed(done, front + [e]) <==> Undisturbed(done, front) && !Disturbs(After(done + front), e)
  {
    var between := front + [e];
    assert forall i :: 0 <= i < |front| ==> between[..i] == front[..i] && between[i] == front[i];
    assert between[..|front|] == front && between[|front|] == e;
    if Undisturbed(done, front) && !Disturbs(After(done + front), e) {
      forall i | 0 <= i < |between| ensures !Disturbs(After(done + between[..i]), between[i]) {
        if i < |front| {
          assert !Disturbs(After(done + front[..i]), front[i]);
        }
      }
    }
    if Undisturbed(done, between) {
      assert !Disturbs(After(done + between[..|front|]), between[|front|]);
      forall i | 0 <= i < |front| ensures !Disturbs(After(done + front[..i]), front[i]) {
        assert !Disturbs(After(done + between[..i]), between[i]);
      }
    }
  }

  // Exactly when an argument delta names the open block: no text, structured output, other
  // accepted tool call, error or finish came since its call started. Only the converse needs
  // that block indices have not saturated, where two blocks would share an index.
  lemma {:induction false} ArgumentsNameOpen(
    before: seq<Event>, p: nat, id: string, name: string, between: seq<Event>, json: string)
    requires FindCall(After(before).calls, p).None? && ToolEnd(p) !in between
    ensures var done := before + [ToolStart(p, Some(id), name)];
            var block := After(before).next;
            var open := After(done + between).open == Some(OpenBlock(block, Tool));
            && Render(After(done + between), ToolArguments(p, json)).1 == Some([BlockDelta(block, Tool, json)])
            && (Undisturbed(done, between) ==> open)
            && (After(done + between).next < USIZE_MAX ==> (open <==> Undisturbed(done, between)))
  {
    var start := ToolStart(p, Some(id), name);
    AfterSnoc(before, start);
    AddedFind(After(before).calls, p, ToolCall(p, After(before).next));
    CallRun(before + [start], between, p, After(before).next);
  }

  // Below saturation a tool end closes no block but its own, so the events that disturb a
  // call's block are just the others named above.
  lemma {:induction false} OnlyOwnEnd(events: seq<Event>, p: nat, q: nat)
    requires After(events).next < USIZE_MAX && p != q
    requires FindCall(After(events).calls, p).Some? && Holding(After(events), FindCall(After(events).calls, p).value)
    ensures !Disturbs(After(events), ToolEnd(q))
  {
    RoomyRun(events);
    FoundCall(After(events).calls, p);
    FoundCall(After(events).calls, q);
  }

  // An argument delta can name a block that is already closed.
  lemma {:induction false} ArgumentsAfterClose(id: string, name: string, text: string, json: string)
    ensures var before := [ToolStart(0, Some(id), name), TextDelta(false, text)];
            && Render(After(before), ToolArguments(0, json)).1 == Some([BlockDelta(0, Tool, json)])
            && After(before).open == Some(OpenBlock(1, Text))
  {
    var start, delta := ToolStart(0, Some(id), name), TextDelta(false, text);
    assert [] + [start] == [start] && [start] + [delta] == [start, delta];
    AfterSnoc([], start);
    AfterSnoc([start], delta);
  }

  // ---------- The stream state in place ----------

  class StreamState {
    var nextBlockIndex: nat
    var openBlock: Option<OpenBlock>
    var toolCalls: seq<ToolCall>
    var usage: Option<Tokens>

    ghost function View(): State
      reads this
    {
      State(nextBlockIndex, openBlock, toolCalls, usage)
    }

    constructor ()
      ensures View() == FRESH
    {
      nextBlockIndex, openBlock, toolCalls, usage := 0, None, [], None;
    }

    method CloseOpenBlock() returns (events: seq<Wire>)
      modifies this`openBlock
      ensures events == Closed(old(View())) && openBlock.None?
    {
      if openBlock.None? {
        return [];
      }
      events := [BlockStop(openBlock.value.index)];
      openBlock := None;
    }

    method NextBlockIndex() returns (index: nat)
      requires nextBlockIndex <= USIZE_MAX
      modifies this`nextBlockIndex
      ensures index == old(nextBlockIndex) && nextBlockIndex == Bump(index)
    {
      index := nextBlockIndex;
      nextBlockIndex := if nextBlockIndex < USIZE_MAX then nextBlockIndex + 1 else USIZE_MAX;
    }

    method RenderTextDelta(kind: Kind, text: string) returns (events: seq<Wire>)
      requires kind != Tool && nextBlockIndex <= USIZE_MAX
      modifies this
      ensures (View(), events) == RenderText(old(View()), kind, text)
    {
      if openBlock.Some? && openBlock.value.kind == kind {
        return [BlockDelta(openBlock.value.index, kind, text)];
      }
      var closing := CloseOpenBlock();
      var index := NextBlockIndex();
      openBlock := Some(OpenBlock(index, kind));
      events := closing + [BlockStart(index, kind, None)] + [BlockDelta(index, kind, text)];
      assert events == closing + [BlockStart(index, kind, None), BlockDelta(index, kind, text)];
    }

    method ToolCallBlockIndex(parser: nat) returns (block: Option<nat>)
      ensures block == FindCall(toolCalls, parser)
    {
      for i := 0 to |toolCalls|
        invariant FindCall(toolCalls, parser) == FindCall(toolCalls[i..], parser)
      {
        assert toolCalls[i..][1..] == toolCalls[i + 1..];
        if toolCalls[i].parser == parser {
          return Some(toolCalls[i].block);
        }
      }
      return None;
    }

    method RenderToolCallStart(parser: nat, id: Option<string>, name: string) returns (r: Option<seq<Wire>>)
      requires nextBlockIndex <= USIZE_MAX
      modifies this
      ensures (View(), r) == RenderToolStart(old(View()), parser, id, name)
    {
      if id.None? {
        return None;
      }
      var known := ToolCallBlockIndex(parser);
      if known.Some? {
        return None;
      }
      var events := CloseOpenBlock();
      var index := NextBlockIndex();
      openBlock := Some(OpenBlock(index, Tool));
      toolCalls := toolCalls + [ToolCall(parser, index)];
      return Some(events + [BlockStart(index, Tool, Some(ToolHead(id.value, name)))]);
    }

    method ForgetCall(parser: nat)
      modifies this`toolCalls
      ensures toolCalls == DropCall(old(toolCalls), parser)
    {
      var kept: seq<ToolCall> := [];
      for i := 0 to |toolCalls|
        invariant toolCalls == old(toolCalls)
        invariant DropCall(toolCalls, parser) == kept + DropCall(toolCalls[i..], parser)
      {
        assert toolCalls[i..][1..] == toolCalls[i + 1..];
        ghost var rest := DropCall(toolCalls[i + 1..], parser);
        assert [] + rest == rest && kept + ([toolCalls[i]] + rest) == kept + [toolCalls[i]] + rest;
        if toolCalls[i].parser != parser {
          kept := kept + [toolCalls[i]];
        }
      }
      toolCalls := kept;
    }

    method RenderToolCallEnd(parser: nat) returns (r: Option<seq<Wire>>)
      modifies this
      ensures (View(), r) == RenderToolEnd(old(View()), parser)
    {
      var block := ToolCallBlockIndex(parser);
      if block.None? {
        return None;
      }
      ForgetCall(parser);
      if openBlock == Some(OpenBlock(block.value, Tool)) {
        var events := CloseOpenBlock();
        return Some(events);
      }
      return None;
    }

    method RenderStreamEvent(e: Event) returns (r: Option<seq<Wire>>)
      requires nextBlockIndex <= USIZE_MAX
      modifies this
      ensures (View(), r) == Render(old(View()), e) && nextBlockIndex <= USIZE_MAX
    {
      match e
      case TextDelta(reasoning, text) =>
        var events := RenderTextDelta(if reasoning then Thinking else Text, text);
        return Some(events);
      case StructuredDelta(text) =>
        var events := RenderTextDelta(Text, text);
        return Some(events);
      case AdaptorSpecific =>
        return None;
      case ToolStart(parser, id, name) =>
        r := RenderToolCallStart(parser, id, name);
      case ToolArguments(parser, json) =>
        var block := ToolCallBlockIndex(parser);
        return if block.None? then None else Some([BlockDelta(block.value, Tool, json)]);
      case ToolEnd(parser) =>
        r := RenderToolCallEnd(parser);
      case Usage(tokens) =>
        usage := Some(tokens);
        return Some([]);
      case Provenance =>
        return Some([]);
      case Error(message, code) =>
        var events := CloseOpenBlock();
        return Some(events + [ErrorWire(message, code)]);
      case Finished(reason, final) =>
        if final.Some? {
          usage := final;
        }
        var events := CloseOpenBlock();
        return Some(events + [FinalWire(reason, usage), MessageStop]);
    }
  }
}
