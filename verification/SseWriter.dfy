/**
 A reference writer of server-sent events, and the round trip through the decoder: what is
 written event by event is decoded event by event, however the bytes are cut.
 Source: crates/adaptors/src/wire.rs; the frames are those that the streams in
 crates/reseller/src/responses_projector.rs:1859-1871 are made of.
 */
module SseWriter {
  import opened Wrappers
  import opened SseDecoder
  import opened SseFrame
  import opened SseStream

  ghost predicate IsByteText(s: string) {
    forall i :: 0 <= i < |s| ==> s[i] as int < 256
  }

  ghost function Ascii(s: string): Text
    requires IsByteText(s)
  {
    seq(|s|, i requires 0 <= i < |s| => s[i] as int)
  }

  ghost function EventLine(name: Text): Text {
    EVENT + [COLON, SPACE] + name
  }

  ghost function DataLine(piece: Text): Text {
    DATA + [COLON, SPACE] + piece
  }

  ghost function DataLines(pieces: seq<Text>): seq<Text> {
    seq(|pieces|, i requires 0 <= i < |pieces| => DataLine(pieces[i]))
  }

  ghost function NameLines(name: Option<Text>): seq<Text> {
    if name.Some? then [EventLine(name.value)] else []
  }

  ghost function FieldLines(name: Option<Text>, pieces: seq<Text>): seq<Text> {
    NameLines(name) + DataLines(pieces)
  }

  // One frame: the name, if any, and a data line for each line of the data.
  ghost function FrameOf(name: Option<Text>, pieces: seq<Text>): Text {
    JoinLines(FieldLines(name, pieces))
  }

  ghost function Written(e: Event): Text {
    FrameOf(e.name, Pieces(e.data))
  }

  ghost predicate Clean(line: Text) {
    LF !in line && (line != [] ==> line[|line| - 1] != CR)
  }

  ghost predicate AllClean(lines: seq<Text>) {
    forall i :: 0 <= i < |lines| ==> Clean(lines[i])
  }

  // No line of the event ends in a carriage return, and its name is one line.
  ghost predicate Writable(e: Event) {
    (e.name.Some? ==> Clean(e.name.value)) && AllClean(Pieces(e.data))
  }

  // ---------- Lines ----------

  ghost predicate NoLf(lines: seq<Text>) {
    forall i :: 0 <= i < |lines| ==> LF !in lines[i]
  }

  lemma {:induction false} PiecesHead(line: Text, rest: Text)
    requires LF !in line
    ensures Pieces(line + [LF] + rest) == [line] + Pieces(rest)
    ensures Pieces(line) == [line]
    decreases |line|
  {
    if line == [] {
      assert (line + [LF] + rest)[1..] == rest;
    } else {
      assert line[0] in line;
      assert forall b :: b in line[1..] ==> b in line;
      PiecesHead(line[1..], rest);
      assert (line + [LF] + rest)[1..] == line[1..] + [LF] + rest;
      assert [line[0]] + line[1..] == line;
    }
  }

  // Joining lines and splitting them again gives them back.
  lemma {:induction false} PiecesOfLines(lines: seq<Text>)
    requires lines != [] && NoLf(lines)
    ensures Pieces(JoinLines(lines)) == lines
    decreases |lines|
  {
    assert LF !in lines[0];
    if |lines| == 1 {
      PiecesHead(lines[0], []);
    } else {
      PiecesOfLines(lines[1..]);
      PiecesHead(lines[0], JoinLines(lines[1..]));
      assert [lines[0]] + lines[1..] == lines;
    }
  }

  // The fields are those named "event" and "data".
  lemma {:induction false} FieldNames(name: Text)
    ensures EventLine(name) == Ascii("event: ") + name && DataLine(name) == Ascii("data: ") + name
  {
    assert Ascii("event: ") == EVENT + [COLON, SPACE];
    assert Ascii("data: ") == DATA + [COLON, SPACE];
  }

  lemma {:induction false} ColonAt(line: Text, i: nat, k: nat)
    requires i <= k < |line| && line[k] == COLON && forall j :: i <= j < k ==> line[j] != COLON
    ensures FindColon(line, i) == k
    decreases k - i
  {
    if i < k {
      ColonAt(line, i + 1, k);
    }
  }

  // A written line is read as the field it was written for.
  lemma {:induction false} ReadField(text: Text)
    ensures Classify(EventLine(text)) == EventField(text)
    ensures Classify(DataLine(text)) == DataField(text)
  {
    var event, data := EventLine(text), DataLine(text);
    assert event[..5] == EVENT && event[6..] == [SPACE] + text;
    ColonAt(event, 0, 5);
    assert data[..4] == DATA && data[5..] == [SPACE] + text;
    ColonAt(data, 0, 4);
    assert ([SPACE] + text)[1..] == text;
  }

  // ---------- One frame back ----------

  // What is left of lines when the frame parser has taken their carriage returns.
  ghost function Stripped(pieces: seq<Text>): seq<Text> {
    seq(|pieces|, i requires 0 <= i < |pieces| => LineAt(pieces, i))
  }

  ghost function StrippedName(name: Option<Text>): Option<Text> {
    if name.Some? then Some(StripCr(StripCr(name.value))) else None
  }

  lemma {:induction false} StripBehind(prefix: Text, text: Text)
    requires prefix != [] && prefix[|prefix| - 1] != CR
    ensures StripCr(prefix + text) == prefix + StripCr(text)
  {
  }

  lemma {:induction false} StripField(text: Text)
    ensures StripCr(EventLine(text)) == EventLine(StripCr(text))
    ensures StripCr(DataLine(text)) == DataLine(StripCr(text))
  {
    StripBehind(EVENT + [COLON, SPACE], text);
    StripBehind(DATA + [COLON, SPACE], text);
  }

  lemma {:induction false} NameKept(raw: seq<Text>, name: Text)
    requires |raw| > 1 && raw[0] == EventLine(name)
    ensures LineAt(raw, 0) == EventLine(StripCr(StripCr(name)))
  {
    StripField(name);
    StripField(StripCr(name));
  }

  lemma {:induction false} DataKept(raw: seq<Text>, pieces: seq<Text>, n: nat, i: nat)
    requires |raw| == n + |pieces| && i < |pieces| && raw[n + i] == DataLine(pieces[i])
    ensures LineAt(raw, n + i) == DataLine(LineAt(pieces, i))
  {
    StripField(pieces[i]);
    StripField(StripCr(pieces[i]));
  }

  lemma {:induction false} LinesAre(b: Text, raw: seq<Text>, lines: seq<Text>)
    requires Pieces(b) == raw && |lines| == |raw| && raw[|raw| - 1] != []
    requires forall i :: 0 <= i < |raw| ==> LineAt(raw, i) == lines[i]
    ensures Lines(b) == lines
  {
  }

  lemma {:induction false} RawLines(name: Option<Text>, pieces: seq<Text>)
    requires NoLf(pieces) && (name.Some? ==> LF !in name.value)
    ensures NoLf(FieldLines(name, pieces))
  {
    var raw := FieldLines(name, pieces);
    forall i | 0 <= i < |raw| ensures LF !in raw[i] {
      if i >= |NameLines(name)| {
        assert LF !in pieces[i - |NameLines(name)|];
      }
    }
  }

  lemma {:induction false} FrameLines(name: Option<Text>, pieces: seq<Text>)
    requires pieces != [] && NoLf(pieces) && (name.Some? ==> LF !in name.value)
    ensures Lines(FrameOf(name, pieces)) == FieldLines(StrippedName(name), Stripped(pieces))
  {
    var raw := FieldLines(name, pieces);
    var lines := FieldLines(StrippedName(name), Stripped(pieces));
    RawLines(name, pieces);
    PiecesOfLines(raw);
    var n := |NameLines(name)|;
    forall i: nat | i < |raw| ensures LineAt(raw, i) == lines[i] {
      if i < n {
        NameKept(raw, name.value);
      } else {
        DataKept(raw, pieces, n, i - n);
      }
    }
    LinesAre(FrameOf(name, pieces), raw, lines);
  }

  ghost function Gathered(name: Option<Text>, pieces: seq<Text>): Acc {
    Acc(name, pieces, 0, if pieces == [] then 0 else |pieces| - Bump(name.Some?))
  }

  ghost predicate ReadAs(lines: seq<Text>, name: Option<Text>, pieces: seq<Text>) {
    var n := Bump(name.Some?);
    && |lines| == n + |pieces|
    && (name.Some? ==> Classify(lines[0]) == EventField(name.value))
    && forall i :: 0 <= i < |pieces| ==> Classify(lines[n + i]) == DataField(pieces[i])
  }

  lemma {:induction false} GatherOne(name: Option<Text>, front: seq<Text>, last: Text)
    ensures Step(Gathered(name, front), DataField(last)) == Gathered(name, front + [last])
  {
  }

  lemma {:induction false} ReadAsFront(lines: seq<Text>, name: Option<Text>, pieces: seq<Text>)
    requires ReadAs(lines, name, pieces) && pieces != []
    ensures ReadAs(lines[..|lines| - 1], name, pieces[..|pieces| - 1])
    ensures Classify(lines[|lines| - 1]) == DataField(pieces[|pieces| - 1])
  {
    assert Classify(lines[Bump(name.Some?) + (|pieces| - 1)]) == DataField(pieces[|pieces| - 1]);
  }

  lemma {:induction false} FoldFields(lines: seq<Text>, name: Option<Text>, pieces: seq<Text>)
    requires ReadAs(lines, name, pieces)
    ensures Fold(lines) == Gathered(name, pieces)
    decreases |pieces|
  {
    if pieces != [] {
      var front, last := pieces[..|pieces| - 1], pieces[|pieces| - 1];
      ReadAsFront(lines, name, pieces);
      FoldFields(lines[..|lines| - 1], name, front);
      GatherOne(name, front, last);
      assert front + [last] == pieces;
    } else if name.Some? {
      assert lines[..0] == [];
      assert Fold(lines[..0]) == EMPTY_ACC;
    }
  }

  lemma {:induction false} FoldWritten(name: Option<Text>, pieces: seq<Text>)
    ensures Fold(FieldLines(name, pieces)) == Gathered(name, pieces)
  {
    var lines, n := FieldLines(name, pieces), Bump(name.Some?);
    if name.Some? {
      ReadField(name.value);
    }
    forall i | 0 <= i < |pieces| ensures Classify(lines[n + i]) == DataField(pieces[i]) {
      assert lines[n + i] == DataLine(pieces[i]);
      ReadField(pieces[i]);
    }
    FoldFields(lines, name, pieces);
  }

  lemma {:induction false} JoinSame(pieces: seq<Text>)
    ensures JoinData(pieces) == JoinLines(pieces)
    decreases |pieces|
  {
    if |pieces| > 1 {
      JoinSame(pieces[..|pieces| - 1]);
      JoinSnoc(pieces[..|pieces| - 1], pieces[|pieces| - 1]);
      assert pieces[..|pieces| - 1] + [pieces[|pieces| - 1]] == pieces;
    }
  }

  lemma {:induction false} JoinSnoc(pieces: seq<Text>, last: Text)
    requires pieces != []
    ensures JoinLines(pieces + [last]) == JoinLines(pieces) + [LF] + last
    decreases |pieces|
  {
    var all := pieces + [last];
    assert all[1..] == pieces[1..] + [last];
    if |pieces| == 1 {
      assert JoinLines(all[1..]) == last;
    } else {
      JoinSnoc(pieces[1..], last);
      assert pieces[0] + [LF] + (JoinLines(pieces[1..]) + [LF] + last)
          == pieces[0] + [LF] + JoinLines(pieces[1..]) + [LF] + last;
    }
  }

  lemma {:induction false} NameHasNoLf(lines: seq<Text>)
    requires NoLf(lines)
    ensures Fold(lines).name.Some? ==> LF !in Fold(lines).name.value
    decreases |lines|
  {
    if lines != [] {
      var last := lines[|lines| - 1];
      NameHasNoLf(lines[..|lines| - 1]);
      if Classify(last).EventField? {
        assert forall b :: b in Classify(last).value ==> b in last;
      }
    }
  }

  lemma {:induction false} LinesHaveNoLf(b: Text)
    ensures NoLf(Lines(b))
  {
    PiecesExact(b);
    forall i | 0 <= i < |Lines(b)| ensures LF !in Lines(b)[i] {
      assert forall x :: x in Lines(b)[i] ==> x in Pieces(b)[i];
    }
  }

  lemma {:induction false} StrippedSame(pieces: seq<Text>)
    requires NoLf(pieces)
    ensures Stripped(pieces) == pieces <==> AllClean(pieces)
  {
    if Stripped(pieces) == pieces {
      forall i | 0 <= i < |pieces| ensures Clean(pieces[i]) {
        assert Stripped(pieces)[i] == pieces[i];
      }
    } else {
      var i :| 0 <= i < |pieces| && Stripped(pieces)[i] != pieces[i];
      assert !Clean(pieces[i]);
    }
  }

  lemma {:induction false} SplitName(isUtf8: Text -> bool, e: Event)
    requires isUtf8(Written(e)) && e.name.Some? && LF in e.name.value
    ensures ParseFrame(isUtf8, Written(e)).value.event != Some(e)
  {
    LinesHaveNoLf(Written(e));
    NameHasNoLf(Lines(Written(e)));
  }

  lemma {:induction false} CarriedData(pieces: seq<Text>)
    requires pieces != [] && NoLf(pieces)
    ensures JoinLines(Stripped(pieces)) == JoinLines(pieces) <==> AllClean(pieces)
  {
    StrippedSame(pieces);
    StrippedNoLf(pieces);
    PiecesOfLines(pieces);
    PiecesOfLines(Stripped(pieces));
  }

  lemma {:induction false} CarriedName(name: Option<Text>)
    requires name.Some? ==> LF !in name.value
    ensures StrippedName(name) == name <==> (name.Some? ==> Clean(name.value))
  {
  }

  // What is left of an event when its lines have lost their carriage returns.
  ghost function Carried(e: Event): Event {
    Event(StrippedName(e.name), JoinLines(Stripped(Pieces(e.data))))
  }

  lemma {:induction false} CarriedExact(e: Event)
    requires e.name.Some? ==> LF !in e.name.value
    ensures Carried(e) == e <==> Writable(e)
  {
    PiecesExact(e.data);
    CarriedName(e.name);
    CarriedData(Pieces(e.data));
  }

  ghost function CarriedLines(e: Event): seq<Text> {
    FieldLines(StrippedName(e.name), Stripped(Pieces(e.data)))
  }

  lemma {:induction false} WrittenLines(e: Event)
    requires e.name.Some? ==> LF !in e.name.value
    ensures Lines(Written(e)) == CarriedLines(e)
  {
    PiecesNoLf(e.data);
    FrameLines(e.name, Pieces(e.data));
  }

  lemma {:induction false} CarriedOutcome(e: Event)
    ensures Outcome(Fold(CarriedLines(e))) ==
              FrameInfo(Some(Carried(e)), 0, |Pieces(e.data)| - Bump(e.name.Some?))
  {
    FoldWritten(StrippedName(e.name), Stripped(Pieces(e.data)));
    JoinSame(Stripped(Pieces(e.data)));
  }

  lemma {:induction false} ParsedBy(isUtf8: Text -> bool, frame: Text, lines: seq<Text>, info: FrameInfo)
    requires isUtf8(frame) && Lines(frame) == lines && Outcome(Fold(lines)) == info
    ensures ParseFrame(isUtf8, frame) == Some(info)
  {
  }

  // A written frame is parsed as its name and its data lines, without their carriage returns.
  lemma {:induction false} FrameParsed(isUtf8: Text -> bool, e: Event)
    requires isUtf8(Written(e)) && (e.name.Some? ==> LF !in e.name.value)
    ensures ParseFrame(isUtf8, Written(e)) ==
              Some(FrameInfo(Some(Carried(e)), 0, |Pieces(e.data)| - Bump(e.name.Some?)))
  {
    WrittenLines(e);
    CarriedOutcome(e);
    ParsedBy(isUtf8, Written(e), CarriedLines(e),
        FrameInfo(Some(Carried(e)), 0, |Pieces(e.data)| - Bump(e.name.Some?)));
  }

  lemma {:induction false} PiecesNoLf(b: Text)
    ensures NoLf(Pieces(b))
  {
    PiecesExact(b);
  }

  // The frame round trip, exactly: a written event is parsed back as itself if and only if
  // its name is one line and no line of it ends in a carriage return. Nothing is then counted
  // as ignored, and each data line but a named event's first as not canonical.
  lemma {:induction false} FrameRoundTrip(isUtf8: Text -> bool, e: Event)
    requires isUtf8(Written(e))
    ensures ParseFrame(isUtf8, Written(e)).value.event == Some(e) <==> Writable(e)
    ensures Writable(e) ==>
              ParseFrame(isUtf8, Written(e)) == Some(FrameInfo(Some(e), 0, |Pieces(e.data)| - Bump(e.name.Some?)))
  {
    if e.name.Some? && LF in e.name.value {
      SplitName(isUtf8, e);
    } else {
      FrameParsed(isUtf8, e);
      CarriedExact(e);
    }
  }

  lemma {:induction false} StrippedNoLf(pieces: seq<Text>)
    requires NoLf(pieces)
    ensures NoLf(Stripped(pieces))
  {
    forall i | 0 <= i < |pieces| ensures LF !in Stripped(pieces)[i] {
      assert forall x :: x in LineAt(pieces, i) ==> x in pieces[i];
    }
  }

  // A line feed at the very end adds no line.
  lemma {:induction false} FinalLineFeed(lines: seq<Text>)
    requires lines != [] && AllClean(lines)
    ensures Lines(JoinLines(lines) + [LF]) == lines
  {
    var ended := lines + [[]];
    assert ended[|lines|] == [] && forall i :: 0 <= i < |lines| ==> ended[i] == lines[i];
    assert NoLf(ended);
    PiecesOfLines(ended);
    JoinSnoc(lines, []);
    assert JoinLines(ended) == JoinLines(lines) + [LF];
    forall i | 0 <= i < |lines| ensures LineAt(ended, i) == lines[i] {
      assert Clean(lines[i]);
    }
    assert Lines(JoinLines(lines) + [LF]) == lines;
  }

  // ---------- A whole stream back ----------

  // Events written one after the other, each closed by a blank line.
  ghost function WriteAll(es: seq<Event>): seq<Byte> {
    if es == [] then [] else Written(es[0]) + [LF, LF] + WriteAll(es[1..])
  }

  ghost function Texts(es: seq<Event>): seq<Text> {
    if es == [] then [] else [Written(es[0])] + Texts(es[1..])
  }

  // Every line feed is followed by the first byte of a field name.
  ghost predicate Tame(b: Text) {
    forall j :: 0 <= j < |b| && b[j] == LF ==> j + 1 < |b| && b[j + 1] != LF && b[j + 1] != CR
  }

  ghost predicate Field(line: Text) {
    line != [] && LF !in line && line[0] != CR
  }

  lemma {:induction false} JoinedTame(lines: seq<Text>)
    requires lines != [] && forall i :: 0 <= i < |lines| ==> Field(lines[i])
    ensures Field(lines[0]) && Field(lines[|lines| - 1])
    ensures Tame(JoinLines(lines)) && JoinLines(lines) != [] && JoinLines(lines)[0] == lines[0][0]
    ensures var last, b := lines[|lines| - 1], JoinLines(lines); b[|b| - 1] == last[|last| - 1]
    decreases |lines|
  {
    var b, first := JoinLines(lines), lines[0];
    assert Field(first);
    forall j | 0 <= j < |first| ensures b[j] != LF {
      assert first[j] in first;
    }
    if |lines| > 1 {
      var rest := JoinLines(lines[1..]);
      JoinedTame(lines[1..]);
      assert b == first + [LF] + rest;
      assert Field(lines[1]);
      TameBehind(first, rest);
    }
  }

  lemma {:induction false} TameBehind(first: Text, rest: Text)
    requires Field(first) && Tame(rest) && rest != [] && rest[0] != LF && rest[0] != CR
    ensures Tame(first + [LF] + rest)
  {
    var b, n := first + [LF] + rest, |first| + 1;
    forall j | 0 <= j < |first| ensures b[j] != LF {
      assert first[j] in first;
    }
    forall j | 0 <= j < |b| && b[j] == LF ensures j + 1 < |b| && b[j + 1] != LF && b[j + 1] != CR {
      if j >= n {
        assert rest[j - n] == LF;
        assert b[j + 1] == rest[j + 1 - n];
      } else {
        assert j == n - 1 && b[j + 1] == rest[0];
      }
    }
  }

  lemma {:induction false} TameOpen(b: Text)
    requires Tame(b) && b != [] && b[|b| - 1] != CR
    ensures NoDelim(b) && EndsOpen(b)
  {
    forall j: nat | j < |b| ensures DelimLen(b, j) == 0 {}
  }

  lemma {:induction false} LineFields(name: Option<Text>, pieces: seq<Text>, i: nat)
    requires (name.Some? ==> Clean(name.value)) && AllClean(pieces) && i < |FieldLines(name, pieces)|
    ensures Field(FieldLines(name, pieces)[i])
  {
    if i >= |NameLines(name)| {
      assert Clean(pieces[i - |NameLines(name)|]);
    }
  }

  lemma {:induction false} LastLine(name: Option<Text>, pieces: seq<Text>)
    requires pieces != [] && AllClean(pieces)
    ensures var lines := FieldLines(name, pieces);
            && lines != [] && lines[|lines| - 1] == DataLine(pieces[|pieces| - 1])
            && lines[|lines| - 1] != [] && lines[|lines| - 1][|lines[|lines| - 1]| - 1] != CR
  {
    assert Clean(pieces[|pieces| - 1]);
  }

  lemma {:induction false} WrittenOpen(e: Event)
    requires Writable(e)
    ensures NoDelim(Written(e)) && EndsOpen(Written(e))
  {
    var lines := FieldLines(e.name, Pieces(e.data));
    forall i | 0 <= i < |lines| ensures Field(lines[i]) {
      LineFields(e.name, Pieces(e.data), i);
    }
    LastLine(e.name, Pieces(e.data));
    JoinedTame(lines);
    TameOpen(JoinLines(lines));
  }

  // The written frames are exactly the frames the stream is cut into.
  lemma {:induction false} CutWritten(es: seq<Event>)
    requires forall i :: 0 <= i < |es| ==> Writable(es[i])
    ensures Cut(WriteAll(es)) == Texts(es) && Tail(WriteAll(es)) == []
    decreases |es|
  {
    if es == [] {
      FindNone([]);
    } else {
      var w, rest := Written(es[0]), WriteAll(es[1..]);
      WrittenOpen(es[0]);
      ClosedByBlankLine(w);
      FirstIsStable(w + [LF, LF], rest);
      assert (w + [LF, LF] + rest)[..|w|] == w && (w + [LF, LF] + rest)[|w| + 2..] == rest;
      CutWritten(es[1..]);
    }
  }

  ghost predicate Sendable(isUtf8: Text -> bool, e: Event) {
    Writable(e) && isUtf8(Written(e)) && |Written(e)| <= MAX_FRAME
  }

  ghost predicate ParsesBack(parse: Parser, e: Event) {
    && Fine(parse, Written(e)) && parse(Written(e)).value.event == Some(e)
    && parse(Written(e)).value.ignored == 0
  }

  lemma {:induction false} TextsParse(parse: Parser, es: seq<Event>)
    requires forall i :: 0 <= i < |es| ==> ParsesBack(parse, es[i])
    ensures AllFine(parse, Texts(es)) && EventsOf(parse, Texts(es)) == es && |Texts(es)| == |es|
    ensures IgnoredIn(parse, Texts(es)) == 0
    decreases |es|
  {
    if es != [] {
      assert ParsesBack(parse, es[0]);
      TextsParse(parse, es[1..]);
      ConsFrame(parse, Written(es[0]), Texts(es[1..]));
      assert [es[0]] + es[1..] == es;
    }
  }

  // The stream round trip: events that can be written are decoded back one for one, in
  // order, however the bytes are cut into pushes, and no line of theirs is ignored.
  lemma {:induction false} StreamRoundTrip(isUtf8: Text -> bool, es: seq<Event>, chunks: seq<seq<Byte>>)
    requires forall i :: 0 <= i < |es| ==> Sendable(isUtf8, es[i])
    requires Concat(chunks) == WriteAll(es) && |WriteAll(es)| <= MAX_RESPONSE && |es| <= MAX_EVENTS
    ensures var parse := b => ParseFrame(isUtf8, b);
            var r := Ended(parse, Run(parse, START, chunks));
            r.Ok? && r.value.events == es && r.value.state.counters.frames == |es|
            && r.value.state.counters.events == |es| && r.value.state.counters.ignored == 0
  {
    var parse := b => ParseFrame(isUtf8, b);
    CutWritten(es);
    forall i | 0 <= i < |es| ensures ParsesBack(parse, es[i]) {
      FrameRoundTrip(isUtf8, es[i]);
    }
    TextsParse(parse, es);
    assert Texts(es) + [] == Texts(es);
    ResponseExact(parse, chunks);
  }
}
