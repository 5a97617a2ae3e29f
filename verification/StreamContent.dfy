/**
 What a rendered stream says, and not only how it is bracketed: every text, argument and
 closing message of the events reaches the client once, in order and with its content.
 Source: crates/adaptors/src/anthropic.rs.
 */
module StreamContent {
  import opened Wrappers
  import opened StreamBrackets

  // What a client takes from the stream, blocks aside.
  datatype Item =
    | Said(kind: Kind, text: string)
    | ToolBegun(id: string, name: string)
    | ToolSaid(json: string)
    | Failed(code: ErrorCode, message: string)
    | Stopped(reason: StopText, input: nat, output: nat)
    | Over

  ghost function ItemOf(w: Wire): seq<Item> {
    match w
    case BlockStart(_, _, tool) => if tool.Some? then [ToolBegun(tool.value.id, tool.value.name)] else []
    case BlockDelta(_, kind, text) => [if kind == Tool then ToolSaid(text) else Said(kind, text)]
    case BlockStop(_) => []
    case ErrorMessage(code, message) => [Failed(code, message)]
    case MessageDelta(reason, input, output) => [Stopped(reason, input, output)]
    case MessageStop => [Over]
  }

  ghost function Items(ws: seq<Wire>): seq<Item> {
    if ws == [] then [] else Items(ws[..|ws| - 1]) + ItemOf(ws[|ws| - 1])
  }

  // ---------- What the events say ----------

  // A call is known from its start until its end.
  ghost predicate Known(events: seq<Event>, p: nat) {
    events != [] &&
    var front, e := events[..|events| - 1], events[|events| - 1];
    (e.ToolStart? && e.index == p && e.id.Some?) || (e != ToolEnd(p) && Known(front, p))
  }

  // The last usage that was reported.
  ghost function Reported(events: seq<Event>): Option<Tokens> {
    if events == [] then None
    else
      var e := events[|events| - 1];
      if e.Usage? then Some(e.tokens)
      else if e.Finished? && e.final.Some? then e.final
      else Reported(events[..|events| - 1])
  }

  ghost function Shown(n: Option<nat>): nat {
    if n.None? then 0 else n.value
  }

  ghost function ReasonShown(reason: StopReason): StopText {
    if reason == MaxOutputTokens then MaxTokens else if reason == ToolCallStop then ToolUse else EndTurn
  }

  ghost function Closing(reason: StopReason, usage: Option<Tokens>): Item {
    if usage.None? then Stopped(ReasonShown(reason), 0, 0)
    else Stopped(ReasonShown(reason), Shown(usage.value.input), Shown(usage.value.output))
  }

  // What one event says after the others.
  ghost function Says(front: seq<Event>, e: Event): seq<Item> {
    match e
    case TextDelta(reasoning, text) => [Said(if reasoning then Thinking else Text, text)]
    case StructuredDelta(text) => [Said(Text, text)]
    case ToolStart(p, id, name) => if id.Some? && !Known(front, p) then [ToolBegun(id.value, name)] else []
    case ToolArguments(p, json) => if Known(front, p) then [ToolSaid(json)] else []
    case Error(message, code) => [Failed(if code.Some? then Named(code.value) else InvalidRequestError, message)]
    case Finished(reason, _) =>
      [Closing(reason, Reported(front + [e])), Over]
    case AdaptorSpecific => []
    case ToolEnd(_) => []
    case Usage(_) => []
    case Provenance => []
  }

  ghost function Content(events: seq<Event>): seq<Item> {
    if events == [] then []
    else Content(events[..|events| - 1]) + Says(events[..|events| - 1], events[|events| - 1])
  }

  // ---------- They agree ----------

  lemma {:induction false} ItemsAppend(a: seq<Wire>, b: seq<Wire>)
    ensures Items(a + b) == Items(a) + Items(b)
    decreases |b|
  {
    if b == [] {
      assert a + b == a;
    } else {
      var front, last := b[..|b| - 1], ItemOf(b[|b| - 1]);
      assert (a + b)[..|a + b| - 1] == a + front;
      ItemsAppend(a, front);
      assert Items(a) + Items(front) + last == Items(a) + (Items(front) + last);
    }
  }

  lemma {:induction false} ItemsOne(w: Wire)
    ensures Items([w]) == ItemOf(w)
  {
    assert [w][..0] == [];
  }

  lemma {:induction false} ClosedSilent(s: State)
    ensures Items(Closed(s)) == []
  {
    if s.open.Some? {
      ItemsOne(BlockStop(s.open.value.index));
    }
  }

  // Closing whatever is open and then emitting says only what is emitted.
  lemma {:induction false} ItemsAfterClosed(s: State, w: Wire)
    ensures Items(Closed(s) + [w]) == ItemOf(w)
  {
    ClosedSilent(s);
    ItemsAppend(Closed(s), [w]);
    ItemsOne(w);
  }

  lemma {:induction false} ItemsAfterTwo(s: State, w: Wire, x: Wire)
    ensures Items(Closed(s) + [w, x]) == ItemOf(w) + ItemOf(x)
  {
    assert Closed(s) + [w, x] == Closed(s) + [w] + [x];
    ItemsAfterClosed(s, w);
    ItemsAppend(Closed(s) + [w], [x]);
    ItemsOne(x);
  }

  // What the renderer remembers, told from the events.
  ghost predicate Remembers(s: State, events: seq<Event>) {
    s.usage == Reported(events) && forall p: nat :: FindCall(s.calls, p).Some? <==> Known(events, p)
  }

  lemma {:induction false} KnownSnoc(events: seq<Event>, e: Event, p: nat)
    ensures Known(events + [e], p) <==>
              (e.ToolStart? && e.index == p && e.id.Some?) || (e != ToolEnd(p) && Known(events, p))
  {
    assert (events + [e])[..|events|] == events;
  }

  lemma {:induction false} CallsRemembered(s: State, events: seq<Event>, e: Event, p: nat)
    requires Remembers(s, events)
    ensures FindCall(Render(s, e).0.calls, p).Some? <==> Known(events + [e], p)
  {
    KnownSnoc(events, e, p);
    assert FindCall(s.calls, p).Some? <==> Known(events, p);
    match e
    case ToolStart(q, id, name) =>
      if id.Some? && FindCall(s.calls, q).None? {
        AddedFind(s.calls, p, ToolCall(q, s.next));
      }
    case ToolEnd(q) =>
      DroppedFind(s.calls, p, q);
      assert FindCall(s.calls, q).Some? <==> Known(events, q);
    case _ =>
  }

  lemma {:induction false} RemembersStep(s: State, events: seq<Event>, e: Event)
    requires Remembers(s, events)
    ensures Remembers(Render(s, e).0, events + [e])
  {
    assert (events + [e])[..|events|] == events;
    forall p: nat ensures FindCall(Render(s, e).0.calls, p).Some? <==> Known(events + [e], p) {
      CallsRemembered(s, events, e, p);
    }
  }

  lemma {:induction false} TextSays(s: State, kind: Kind, text: string)
    requires kind != Tool
    ensures Items(RenderText(s, kind, text).1) == [Said(kind, text)]
  {
    if s.open.Some? && s.open.value.kind == kind {
      ItemsOne(BlockDelta(s.open.value.index, kind, text));
    } else {
      ItemsAfterTwo(s, BlockStart(s.next, kind, None), BlockDelta(s.next, kind, text));
    }
  }

  lemma {:induction false} ToolSays(s: State, events: seq<Event>, e: Event)
    requires Remembers(s, events) && (e.ToolStart? || e.ToolArguments? || e.ToolEnd?)
    ensures Items(Emitted(Render(s, e).1)) == Says(events, e)
  {
    assert FindCall(s.calls, e.index).Some? <==> Known(events, e.index);
    if e.ToolStart? && e.id.Some? {
      ItemsAfterClosed(s, BlockStart(s.next, Tool, Some(ToolHead(e.id.value, e.name))));
    } else if e.ToolArguments? && FindCall(s.calls, e.index).Some? {
      ItemsOne(BlockDelta(FindCall(s.calls, e.index).value, Tool, e.json));
    } else if e.ToolEnd? {
      ClosedSilent(s);
    }
  }

  lemma {:induction false} ClosingItem(reason: StopReason, usage: Option<Tokens>)
    ensures ItemOf(FinalWire(reason, usage)) == [Closing(reason, usage)]
  {
  }

  lemma {:induction false} ReportedSnoc(events: seq<Event>, e: Event)
    requires e.Finished?
    ensures Reported(events + [e]) == if e.final.Some? then e.final else Reported(events)
  {
    assert (events + [e])[..|events|] == events;
  }

  lemma {:induction false} FinishSays(s: State, events: seq<Event>, e: Event)
    requires Remembers(s, events) && e.Finished?
    ensures Items(Emitted(Render(s, e).1)) == Says(events, e)
  {
    var usage := if e.final.Some? then e.final else s.usage;
    ReportedSnoc(events, e);
    ItemsAfterTwo(s, FinalWire(e.reason, usage), MessageStop);
    ClosingItem(e.reason, usage);
  }

  lemma {:induction false} ErrorSays(s: State, events: seq<Event>, e: Event)
    requires e.Error?
    ensures Items(Emitted(Render(s, e).1)) == Says(events, e)
  {
    ItemsAfterClosed(s, ErrorWire(e.message, e.code));
  }

  lemma {:induction false} EventSays(s: State, events: seq<Event>, e: Event)
    requires Remembers(s, events)
    ensures Items(Emitted(Render(s, e).1)) == Says(events, e)
  {
    match e
    case TextDelta(reasoning, text) => TextSays(s, if reasoning then Thinking else Text, text);
    case StructuredDelta(text) => TextSays(s, Text, text);
    case ToolStart(_, _, _) => ToolSays(s, events, e);
    case ToolArguments(_, _) => ToolSays(s, events, e);
    case ToolEnd(_) => ToolSays(s, events, e);
    case Error(_, _) => ErrorSays(s, events, e);
    case Finished(_, _) => FinishSays(s, events, e);
    case _ => assert Emitted(Render(s, e).1) == [];
  }

  lemma {:induction false} RunRemembers(events: seq<Event>)
    ensures Remembers(After(events), events)
    decreases |events|
  {
    if events != [] {
      var front, e := events[..|events| - 1], events[|events| - 1];
      RunRemembers(front);
      RemembersStep(After(front), front, e);
      assert front + [e] == events;
    }
  }

  // For every event sequence the emitted stream says exactly what the events say: each text,
  // reasoning and structured delta, each argument delta of a known call, each start of a new
  // call and each closing message, once, in order, with its content.
  lemma {:induction false} ContentExact(events: seq<Event>)
    ensures Items(Log(events)) == Content(events)
    decreases |events|
  {
    if events != [] {
      var front, e := events[..|events| - 1], events[|events| - 1];
      ContentExact(front);
      RunRemembers(front);
      EventSays(After(front), front, e);
      ItemsAppend(Log(front), Emitted(Render(After(front), e).1));
    }
  }

  // ---------- What is refused ----------

  // Exactly the events the renderer refuses: adaptor events, a call that starts without an id
  // or while it is known, arguments or the end of a call that is not known, and the end of a
  // call whose block is not the open one.
  lemma {:induction false} RefusedExact(events: seq<Event>, e: Event)
    ensures Render(After(events), e).1.None? <==>
              match e
              case AdaptorSpecific => true
              case ToolStart(p, id, _) => id.None? || Known(events, p)
              case ToolArguments(p, _) => !Known(events, p)
              case ToolEnd(p) => !Known(events, p) || !OwnBlockOpen(events, p)
              case _ => false
  {
    RunRemembers(events);
    match e
    case ToolStart(p, _, _) => assert FindCall(After(events).calls, p).Some? <==> Known(events, p);
    case ToolArguments(p, _) => assert FindCall(After(events).calls, p).Some? <==> Known(events, p);
    case ToolEnd(p) => EndRefused(events, p);
    case _ =>
  }

  lemma {:induction false} EndRefused(events: seq<Event>, p: nat)
    ensures Render(After(events), ToolEnd(p)).1.None? <==> !Known(events, p) || !OwnBlockOpen(events, p)
  {
    RunRemembers(events);
    Bracketed(events);
    assert FindCall(After(events).calls, p).Some? <==> Known(events, p);
  }

  // The open block of the emitted stream is the one that the call's arguments go to.
  ghost predicate OwnBlockOpen(events: seq<Event>, p: nat) {
    var arguments := Render(After(events), ToolArguments(p, "")).1;
    arguments.Some? && |arguments.value| == 1 && arguments.value[0].BlockDelta?
    && ReadAll(NOTHING, Log(events)).open == Some(OpenBlock(arguments.value[0].index, Tool))
  }
}
