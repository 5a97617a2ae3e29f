/**
 The line grammar of one server-sent-events frame, and which frames a sealed
 adaptor can accept.
 Source: crates/adaptors/src/wire.rs.
 */
module SseFrame {
  import opened Wrappers
  import opened SseDecoder

  const COLON: Byte := 58
  const SPACE: Byte := 32
  const EVENT: seq<Byte> := [101, 118, 101, 110, 116]
  const DATA: seq<Byte> := [100, 97, 116, 97]

  type Text = seq<Byte>

  // ---------- Lines ----------

  // The pieces between line feeds; there is always at least one.
  function Pieces(b: Text): (ps: seq<Text>)
    ensures ps != []
  {
    if b == [] then [[]]
    else
      var rest := Pieces(b[1..]);
      if b[0] == LF then [[]] + rest else [[b[0]] + rest[0]] + rest[1..]
  }

  ghost function JoinLines(ps: seq<Text>): Text {
    if ps == [] then [] else if |ps| == 1 then ps[0] else ps[0] + [LF] + JoinLines(ps[1..])
  }

  // Splitting loses nothing and leaves no line feed inside a piece.
  lemma {:induction false} PiecesExact(b: Text)
    ensures JoinLines(Pieces(b)) == b
    ensures forall i :: 0 <= i < |Pieces(b)| ==> LF !in Pieces(b)[i]
  {
    if b != [] {
      PiecesExact(b[1..]);
      var rest := Pieces(b[1..]);
      if b[0] == LF {
        assert JoinLines([[]] + rest) == [] + [LF] + JoinLines(rest) by {
          assert ([[]] + rest)[1..] == rest;
        }
        assert [LF] + b[1..] == b;
      } else {
        var ps := [[b[0]] + rest[0]] + rest[1..];
        assert ps[1..] == rest[1..];
        assert JoinLines(ps) == [b[0]] + JoinLines(rest);
        assert [b[0]] + b[1..] == b;
      }
    }
  }

  function StripCr(line: Text): Text {
    if line != [] && line[|line| - 1] == CR then line[..|line| - 1] else line
  }

  // The lines of a text: an empty last piece is no line, and a terminated line also
  // loses the carriage return of its terminator.
  function LineAt(ps: seq<Text>, i: nat): Text
    requires i < |ps|
  {
    if i < |ps| - 1 then StripCr(StripCr(ps[i])) else StripCr(ps[i])
  }

  function LineCount(ps: seq<Text>): nat
    requires ps != []
  {
    if ps[|ps| - 1] == [] then |ps| - 1 else |ps|
  }

  function Lines(b: Text): seq<Text> {
    var ps := Pieces(b);
    seq(LineCount(ps), i requires 0 <= i < LineCount(ps) => LineAt(ps, i))
  }

  // ---------- Fields ----------

  datatype Line = Blank | Ignored | EventField(value: Text) | DataField(value: Text)

  function FindColon(line: Text, i: nat): (r: nat)
    requires i <= |line|
    ensures i <= r <= |line|
    decreases |line| - i
  {
    if i == |line| || line[i] == COLON then i else FindColon(line, i + 1)
  }

  function StripSpace(value: Text): Text {
    if value != [] && value[0] == SPACE then value[1..] else value
  }

  function Classify(line: Text): Line {
    if line == [] then Blank
    else
      var colon := FindColon(line, 0);
      if colon == 0 || colon == |line| then Ignored
      else
        var field, value := line[..colon], StripSpace(line[colon + 1..]);
        if field == EVENT then EventField(value)
        else if field == DATA then DataField(value)
        else Ignored
  }

  // ---------- One frame ----------

  datatype Acc = Acc(name: Option<Text>, data: seq<Text>, ignored: nat, noncanonical: nat)

  const EMPTY_ACC := Acc(None, [], 0, 0)

  function Bump(b: bool): nat {
    if b then 1 else 0
  }

  function Step(a: Acc, line: Line): Acc {
    match line
    case Blank => a.(noncanonical := a.noncanonical + 1)
    case Ignored => a.(ignored := a.ignored + 1)
    case EventField(value) =>
      if a.name.Some? then a.(ignored := a.ignored + 1)
      else a.(name := Some(value), noncanonical := a.noncanonical + Bump(a.data != []))
    case DataField(value) =>
      a.(data := a.data + [value], noncanonical := a.noncanonical + Bump(a.name.None? || a.data != []))
  }

  function Fold(lines: seq<Text>): Acc {
    if lines == [] then EMPTY_ACC
    else Step(Fold(lines[..|lines| - 1]), Classify(lines[|lines| - 1]))
  }

  function Outcome(a: Acc): FrameInfo {
    FrameInfo(if a.data == [] then None else Some(Event(a.name, JoinData(a.data))), a.ignored, a.noncanonical)
  }

  function JoinData(data: seq<Text>): Text {
    if data == [] then [] else if |data| == 1 then data[0]
    else JoinData(data[..|data| - 1]) + [LF] + data[|data| - 1]
  }

  function ParseFrame(isUtf8: Text -> bool, frame: Text): Option<FrameInfo> {
    if !isUtf8(frame) then None else Some(Outcome(Fold(Lines(frame))))
  }

  method ParseSseFrame(isUtf8: Text -> bool, frame: Text) returns (r: Option<FrameInfo>)
    ensures r == ParseFrame(isUtf8, frame)
  {
    if !isUtf8(frame) {
      return None;
    }
    var lines := Lines(frame);
    var acc := EMPTY_ACC;
    assert lines[..0] == [];
    for i := 0 to |lines|
      invariant acc == Fold(lines[..i])
    {
      assert lines[..i + 1][..i] == lines[..i];
      acc := Step(acc, Classify(lines[i]));
    }
    assert lines[..|lines|] == lines;
    return Some(Outcome(acc));
  }

  // ---------- What the counters mean ----------

  ghost function Blanks(lines: seq<Text>): nat {
    if lines == [] then 0 else Blanks(lines[..|lines| - 1]) + Bump(Classify(lines[|lines| - 1]).Blank?)
  }

  // Every line is accounted for once: blank, discarded, the event name, or data.
  lemma {:induction false} LinesAccounted(lines: seq<Text>)
    ensures var a := Fold(lines);
            |lines| == Blanks(lines) + a.ignored + Bump(a.name.Some?) + |a.data| && Blanks(lines) <= a.noncanonical
  {
    if lines != [] {
      LinesAccounted(lines[..|lines| - 1]);
    }
  }

  ghost predicate SealedLines(lines: seq<Text>) {
    |lines| == 2 && Classify(lines[0]).EventField? && Classify(lines[1]).DataField?
  }

  // With nothing counted against it, a frame has seen a prefix of one event line
  // followed by one data line.
  lemma {:induction false} CleanShape(lines: seq<Text>)
    ensures var a := Fold(lines);
            a.ignored == 0 && a.noncanonical == 0 <==>
            lines == [] || (|lines| == 1 && Classify(lines[0]).EventField?) || SealedLines(lines)
    ensures |lines| == 1 && Classify(lines[0]).EventField? ==>
        Fold(lines) == Acc(Some(Classify(lines[0]).value), [], 0, 0)
    ensures SealedLines(lines) ==>
              Fold(lines) == Acc(Some(Classify(lines[0]).value), [Classify(lines[1]).value], 0, 0)
  {
    if lines != [] {
      var n := |lines| - 1;
      CleanShape(lines[..n]);
      if n == 1 {
        assert lines[..n][0] == lines[0];
      } else if n == 2 {
        assert lines[..n][0] == lines[0] && lines[..n][1] == lines[1];
      }
    }
  }

  // Sealed framing: a frame carries an event with both counters at zero if and only if
  // it is exactly one event line followed by one data line, and then those are its
  // name and data.
  lemma {:induction false} SealedExact(isUtf8: Text -> bool, frame: Text)
    requires isUtf8(frame)
    ensures var info := ParseFrame(isUtf8, frame).value;
            info.event.Some? && info.ignored == 0 && info.noncanonical == 0 <==> SealedLines(Lines(frame))
    ensures SealedLines(Lines(frame)) ==>
              ParseFrame(isUtf8, frame).value.event
              == Some(Event(Some(Classify(Lines(frame)[0]).value), Classify(Lines(frame)[1]).value))
  {
    CleanShape(Lines(frame));
  }

  // ---------- What the lines of a frame mean ----------

  // A line is data exactly when it starts with "data:", and names the event exactly when it
  // starts with "event:"; one space after the colon is not part of the value. An empty line
  // is blank, and every other line is ignored: comments, other fields, lines without a colon.
  lemma {:induction false} ClassifyExact(line: Text)
    ensures Classify(line).Blank? <==> line == []
    ensures Classify(line).DataField? <==> DATA + [COLON] <= line
    ensures Classify(line).EventField? <==> EVENT + [COLON] <= line
    ensures Classify(line).DataField? ==> Classify(line).value == StripSpace(line[5..])
    ensures Classify(line).EventField? ==> Classify(line).value == StripSpace(line[6..])
  {
    ColonFirst(line, 0);
    if DATA + [COLON] <= line {
      assert line[4] == COLON && forall i :: 0 <= i < 4 ==> line[i] == DATA[i] != COLON;
      assert line[..4] == DATA;
    }
    if EVENT + [COLON] <= line {
      assert line[5] == COLON && forall i :: 0 <= i < 5 ==> line[i] == EVENT[i] != COLON;
      assert line[..5] == EVENT;
    }
  }

  lemma {:induction false} ColonFirst(line: Text, i: nat)
    requires i <= |line|
    ensures forall j :: i <= j < FindColon(line, i) ==> line[j] != COLON
    ensures FindColon(line, i) < |line| ==> line[FindColon(line, i)] == COLON
    decreases |line| - i
  {
    if i < |line| && line[i] != COLON {
      ColonFirst(line, i + 1);
    }
  }

  // The name is that of the first event line.
  ghost function FirstName(lines: seq<Text>): Option<Text> {
    if lines == [] then None
    else if Classify(lines[0]).EventField? then Some(Classify(lines[0]).value)
    else FirstName(lines[1..])
  }

  // The data lines, in order.
  ghost function DataValues(lines: seq<Text>): seq<Text> {
    if lines == [] then []
    else (if Classify(lines[0]).DataField? then [Classify(lines[0]).value] else []) + DataValues(lines[1..])
  }

  // A line that says nothing after these: no field, or one more event name.
  ghost predicate SaysNothing(before: seq<Text>, line: Text) {
    Classify(line).Ignored? || (Classify(line).EventField? && FirstName(before).Some?)
  }

  // A line out of the order of one name and then one data line.
  ghost predicate OutOfOrder(before: seq<Text>, line: Text) {
    || Classify(line).Blank?
    || (Classify(line).EventField? && FirstName(before).None? && DataValues(before) != [])
    || (Classify(line).DataField? && (FirstName(before).None? || DataValues(before) != []))
  }

  ghost function IgnoredLines(lines: seq<Text>): nat {
    if lines == [] then 0
    else IgnoredLines(lines[..|lines| - 1]) + Bump(SaysNothing(lines[..|lines| - 1], lines[|lines| - 1]))
  }

  ghost function NoncanonicalLines(lines: seq<Text>): nat {
    if lines == [] then 0
    else NoncanonicalLines(lines[..|lines| - 1]) + Bump(OutOfOrder(lines[..|lines| - 1], lines[|lines| - 1]))
  }

  lemma {:induction false} ReadSnoc(lines: seq<Text>, line: Text)
    ensures FirstName(lines + [line]) ==
              if FirstName(lines).Some? then FirstName(lines)
              else if Classify(line).EventField? then Some(Classify(line).value) else None
    ensures DataValues(lines + [line]) ==
              DataValues(lines) + if Classify(line).DataField? then [Classify(line).value] else []
    decreases |lines|
  {
    if lines == [] {
      assert lines + [line] == [line] && [line][1..] == [];
    } else {
      ReadSnoc(lines[1..], line);
      assert (lines + [line])[1..] == lines[1..] + [line];
    }
  }

  // What parsing the lines of a frame gives: the first name, all data in order, and each line
  // counted as ignored or out of order for what it is.
  lemma {:induction false} FoldExact(lines: seq<Text>)
    ensures Fold(lines) == Acc(FirstName(lines), DataValues(lines), IgnoredLines(lines), NoncanonicalLines(lines))
    decreases |lines|
  {
    if lines != [] {
      var front, last := lines[..|lines| - 1], lines[|lines| - 1];
      FoldExact(front);
      ReadSnoc(front, last);
      assert front + [last] == lines;
    }
  }
}
