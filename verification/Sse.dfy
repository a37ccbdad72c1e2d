/** Event streams as bytes: the writer of the dashboard and the parser of upstream responses, after the
    format of section 9.2.6 of the WHATWG HTML Living Standard but with lines that end at line feeds
    only. */
module Sse {

  newtype byte = x: int | 0 <= x < 256

  type Bytes = seq<byte>

  const LF: byte := 10
  const CR: byte := 13
  const SPACE: byte := 32
  const COLON: byte := 58
  const DATA: Bytes := [100, 97, 116, 97]
  const EVENT: Bytes := [101, 118, 101, 110, 116]
  const DONE: Bytes := [91, 68, 79, 78, 69, 93]

  const LIMIT := 256 * 1024 * 1024

  // ---------- lines

  /** Where the first `b` is, or the length without one. */
  function Find(s: Bytes, b: byte): (n: nat)
    ensures n <= |s| && b !in s[..n] && (n < |s| ==> s[n] == b)
  {
    if s == [] || s[0] == b then 0
    else
      var n := Find(s[1..], b);
      assert s[..n + 1] == [s[0]] + s[1..][..n];
      n + 1
  }

  lemma {:induction false} FindFirst(a: Bytes, b: byte, rest: Bytes)
    requires b !in a
    ensures Find(a + [b] + rest, b) == |a|
  {
    if a != [] {
      FindFirst(a[1..], b, rest);
      assert (a + [b] + rest)[1..] == a[1..] + [b] + rest;
    }
  }

  /** The scanner drops one carriage return before the line feed. */
  function Strip(raw: Bytes): Bytes {
    if raw != [] && raw[|raw| - 1] == CR then raw[..|raw| - 1] else raw
  }

  /** What follows the line feed at `n`. */
  function Past(s: Bytes, n: nat): Bytes
    requires n <= |s|
  {
    if n < |s| then s[n + 1..] else []
  }

  // ---------- the parser

  datatype Ending = UnexpectedEnd | Invalid | Refused

  datatype Reading = Reading(delivered: seq<Bytes>, ending: Ending)

  /** The value of a data line; other fields and comments have none. */
  datatype Field = DataField(value: Bytes) | Ignored

  function FieldOf(line: Bytes): Field {
    var n := Find(line, COLON);
    if line[..n] != DATA then Ignored
    else
      var value := Past(line, n);
      DataField(if value != [] && value[0] == SPACE then value[1..] else value)
  }

  /** What the receiver does with a payload, given all it has been handed up to that one. */
  type Receiver = seq<Bytes> -> bool

  /** `seen` are the payloads the receiver has taken so far. */
  function Interpret(s: Bytes, data: Bytes, seen: seq<Bytes>, refuses: Receiver): Reading
    decreases |s|, 0
  {
    if s == [] then Reading([], UnexpectedEnd)
    else
      var n := Find(s, LF);
      if n >= LIMIT then Reading([], Invalid)
      else InterpretLine(Strip(s[..n]), Past(s, n), data, seen, refuses)
  }

  function InterpretLine(line: Bytes, rest: Bytes, data: Bytes, seen: seq<Bytes>, refuses: Receiver): Reading
    decreases |rest|, 1
  {
    if line == [] && data == [] then Interpret(rest, [], seen, refuses)
    else if line == [] then
      var payload := data[..|data| - 1];
      if payload == DONE then Reading([], UnexpectedEnd)
      else if refuses(seen + [payload]) then Reading([payload], Refused)
      else
        var after := Interpret(rest, [], seen + [payload], refuses);
        after.(delivered := [payload] + after.delivered)
    else
      match FieldOf(line)
      case Ignored => Interpret(rest, data, seen, refuses)
      case DataField(value) =>
        if |data| + |value| + 1 > LIMIT then Reading([], Invalid)
        else Interpret(rest, data + value + [LF], seen, refuses)
  }

  function Behind(delivered: seq<Bytes>, r: Reading): Reading {
    r.(delivered := delivered + r.delivered)
  }

  /** The scan loop: lines come off the stream, data gathers until an empty line hands it over. */
  method ReadResponseSSE(s: Bytes, refuses: Receiver) returns (delivered: seq<Bytes>, ending: Ending)
    ensures Reading(delivered, ending) == Interpret(s, [], [], refuses)
  {
    delivered, ending := [], UnexpectedEnd;
    var rest, data := s, [];
    while rest != []
      invariant Interpret(s, [], [], refuses) == Behind(delivered, Interpret(rest, data, delivered, refuses))
      decreases |rest|
    {
      var n := Find(rest, LF);
      if n >= LIMIT {
        return delivered, Invalid;
      }
      var line := Strip(rest[..n]);
      rest := Past(rest, n);
      if line == [] {
        if data == [] {
          continue;
        }
        data := data[..|data| - 1];
        if data == DONE {
          return delivered, UnexpectedEnd;
        }
        delivered := delivered + [data];
        if refuses(delivered) {
          return delivered, Refused;
        }
        data := [];
        continue;
      }
      var colon := Find(line, COLON);
      if line[..colon] != DATA {
        continue;
      }
      var value := Past(line, colon);
      if value != [] && value[0] == SPACE {
        value := value[1..];
      }
      if |data| + |value| + 1 > LIMIT {
        return delivered, Invalid;
      }
      data := data + value + [LF];
    }
  }

  // ---------- the writer

  /** The lines of a payload: what lies between its line feeds. */
  function Split(data: Bytes): (lines: seq<Bytes>)
    ensures lines != []
    decreases |data|
  {
    var n := Find(data, LF);
    if n == |data| then [data] else [data[..n]] + Split(data[n + 1..])
  }

  const PREFIX: Bytes := DATA + [COLON, SPACE]

  function DataLines(lines: seq<Bytes>): Bytes {
    if lines == [] then [] else PREFIX + lines[0] + [LF] + DataLines(lines[1..])
  }

  function Written(event: Bytes, data: Bytes): Bytes {
    EVENT + [COLON, SPACE] + event + [LF] + DataLines(Split(data)) + [LF]
  }

  /** The output of a successful writeSSEEvent. */
  method WriteSSEEvent(event: Bytes, data: Bytes) returns (output: Bytes)
    ensures output == Written(event, data)
  {
    output := EVENT + [COLON, SPACE] + event + [LF];
    ghost var head := output;
    var rest := Split(data);
    while rest != []
      invariant output + DataLines(rest) == head + DataLines(Split(data))
      decreases |rest|
    {
      Regroup(output, PREFIX + rest[0] + [LF], DataLines(rest[1..]));
      output := output + (PREFIX + rest[0] + [LF]);
      rest := rest[1..];
    }
    output := output + [LF];
  }

  // ---------- the round trip

  function Stripped(lines: seq<Bytes>): seq<Bytes> {
    if lines == [] then [] else [Strip(lines[0])] + Stripped(lines[1..])
  }

  /** A payload as it is read back: every line without a carriage return at its end. */
  function Received(data: Bytes): Bytes {
    var joined := Joined(Stripped(Split(data)));
    if joined == [] then [] else joined[..|joined| - 1]
  }

  predicate ShortLines(lines: seq<Bytes>) {
    forall i {:trigger lines[i]} :: 0 <= i < |lines| ==> LF !in lines[i] && |lines[i]| + 6 < LIMIT
  }

  predicate Fits(event: Bytes, data: Bytes) {
    LF !in event && |event| + 7 < LIMIT && |data| + 1 <= LIMIT && ShortLines(Split(data))
  }

  lemma OneLine(line: Bytes, rest: Bytes, data: Bytes, seen: seq<Bytes>, refuses: Receiver)
    requires LF !in line && |line| < LIMIT
    ensures Interpret(line + [LF] + rest, data, seen, refuses) == InterpretLine(Strip(line), rest, data, seen, refuses)
  {
    FindFirst(line, LF, rest);
    var s := line + [LF] + rest;
    assert s[..|line|] == line && s[|line| + 1..] == rest;
  }

  lemma EventLineIgnored(event: Bytes, rest: Bytes, seen: seq<Bytes>, refuses: Receiver)
    requires LF !in event && |event| + 7 < LIMIT
    ensures Interpret(EVENT + [COLON, SPACE] + event + [LF] + rest, [], seen, refuses) ==
            Interpret(rest, [], seen, refuses)
  {
    var line := EVENT + [COLON, SPACE] + event;
    OneLine(line, rest, [], seen, refuses);
    var stripped := Strip(line);
    assert stripped == EVENT + [COLON] + stripped[6..];
    FindFirst(EVENT, COLON, stripped[6..]);
    assert stripped[..5] == EVENT;
  }

  lemma StripPrefixed(line: Bytes)
    ensures Strip(PREFIX + line) == PREFIX + Strip(line)
  {
    if line != [] && line[|line| - 1] == CR {
      assert PREFIX + line == PREFIX + line[..|line| - 1] + [CR];
    }
  }

  lemma DataFieldOf(value: Bytes)
    ensures FieldOf(PREFIX + value) == DataField(value)
  {
    var whole := PREFIX + value;
    assert whole == DATA + [COLON] + ([SPACE] + value);
    FindFirst(DATA, COLON, [SPACE] + value);
    assert whole[..4] == DATA && whole[5..] == [SPACE] + value;
    assert ([SPACE] + value)[1..] == value;
  }

  lemma DataLineGathers(line: Bytes, rest: Bytes, data: Bytes, seen: seq<Bytes>, refuses: Receiver)
    requires LF !in line && |line| + 6 < LIMIT && |data| + |line| + 1 <= LIMIT
    ensures Interpret(PREFIX + line + [LF] + rest, data, seen, refuses) ==
            Interpret(rest, data + Strip(line) + [LF], seen, refuses)
  {
    StripPrefixed(line);
    DataFieldOf(Strip(line));
    OneLine(PREFIX + line, rest, data, seen, refuses);
  }

  function Joined(lines: seq<Bytes>): Bytes {
    if lines == [] then [] else lines[0] + [LF] + Joined(lines[1..])
  }

  lemma {:induction false} SplitJoins(data: Bytes)
    ensures Joined(Split(data)) == data + [LF]
    decreases |data|
  {
    var n := Find(data, LF);
    if n < |data| {
      SplitJoins(data[n + 1..]);
      assert data == data[..n] + [LF] + data[n + 1..];
      assert ([data[..n]] + Split(data[n + 1..]))[1..] == Split(data[n + 1..]);
    } else {
      assert Split(data)[1..] == [];
    }
  }

  lemma Regroup(a: Bytes, b: Bytes, c: Bytes)
    ensures a + b + c == a + (b + c)
  {
  }

  lemma {:induction false} LinesGather(lines: seq<Bytes>, rest: Bytes, data: Bytes, seen: seq<Bytes>, refuses: Receiver)
    requires ShortLines(lines) && |data| + |Joined(lines)| <= LIMIT
    ensures Interpret(DataLines(lines) + rest, data, seen, refuses) ==
            Interpret(rest, data + Joined(Stripped(lines)), seen, refuses)
  {
    if lines == [] {
      assert DataLines(lines) + rest == rest;
      assert data + Joined(Stripped(lines)) == data;
    } else {
      var line, tail := lines[0], lines[1..];
      assert LF !in line;
      Regroup(PREFIX + line + [LF], DataLines(tail), rest);
      DataLineGathers(line, DataLines(tail) + rest, data, seen, refuses);
      LinesGather(tail, rest, data + Strip(line) + [LF], seen, refuses);
      assert ([Strip(line)] + Stripped(tail))[1..] == Stripped(tail);
      Regroup(data, Strip(line), [LF]);
      Regroup(data, Strip(line) + [LF], Joined(Stripped(tail)));
    }
  }

  lemma {:induction false} StrippedSame(lines: seq<Bytes>)
    ensures |Joined(Stripped(lines))| <= |Joined(lines)| && |Stripped(lines)| == |lines|
    ensures |Joined(Stripped(lines))| == |Joined(lines)| <==>
      forall i :: 0 <= i < |lines| ==> Strip(lines[i]) == lines[i]
    ensures |Joined(Stripped(lines))| == |Joined(lines)| ==> Stripped(lines) == lines
    ensures lines != [] ==>
      Joined(Stripped(lines)) != [] && Joined(Stripped(lines))[|Joined(Stripped(lines))| - 1] == LF
  {
    if lines != [] {
      StrippedSame(lines[1..]);
      assert ([Strip(lines[0])] + Stripped(lines[1..]))[1..] == Stripped(lines[1..]);
      assert lines == [lines[0]] + lines[1..];
    }
  }

  /** A payload comes back as it was exactly when none of its lines ends in a carriage return. */
  lemma ReceivedSame(data: Bytes)
    ensures Received(data) == data <==> forall i :: 0 <= i < |Split(data)| ==> Strip(Split(data)[i]) == Split(data)[i]
    ensures Received(data) + [LF] == Joined(Stripped(Split(data)))
  {
    SplitJoins(data);
    StrippedSame(Split(data));
    var joined := Joined(Stripped(Split(data)));
    assert joined[..|joined| - 1] + [joined[|joined| - 1]] == joined;
    assert (data + [LF])[..|data|] == data;
  }

  /** The empty line hands the gathered lines over. */
  lemma EmptyLineDelivers(data: Bytes, rest: Bytes, seen: seq<Bytes>, refuses: Receiver)
    requires data != DONE && !refuses(seen + [data])
    ensures Interpret([LF] + rest, data + [LF], seen, refuses) ==
            Behind([data], Interpret(rest, [], seen + [data], refuses))
  {
    assert [LF] + rest == [] + [LF] + rest;
    OneLine([], rest, data + [LF], seen, refuses);
    assert (data + [LF])[..|data|] == data;
  }

  /** One written event is read back as one payload, whatever follows it. */
  lemma WrittenIsRead(event: Bytes, data: Bytes, rest: Bytes, seen: seq<Bytes>, refuses: Receiver)
    requires Fits(event, data) && Received(data) != DONE && !refuses(seen + [Received(data)])
    ensures Interpret(Written(event, data) + rest, [], seen, refuses) ==
            Behind([Received(data)], Interpret(rest, [], seen + [Received(data)], refuses))
  {
    var head, lines := EVENT + [COLON, SPACE] + event + [LF], Split(data);
    Regroup(head, DataLines(lines), [LF]);
    Regroup(head, DataLines(lines) + [LF], rest);
    Regroup(DataLines(lines), [LF], rest);
    EventLineIgnored(event, DataLines(lines) + ([LF] + rest), seen, refuses);
    SplitJoins(data);
    LinesGather(lines, [LF] + rest, [], seen, refuses);
    ReceivedSame(data);
    assert [] + Joined(Stripped(lines)) == Received(data) + [LF];
    EmptyLineDelivers(Received(data), rest, seen, refuses);
  }

  datatype Message = Message(event: Bytes, data: Bytes)

  function WrittenAll(messages: seq<Message>): Bytes {
    if messages == [] then [] else Written(messages[0].event, messages[0].data) + WrittenAll(messages[1..])
  }

  function Payloads(messages: seq<Message>): seq<Bytes> {
    if messages == [] then [] else [Received(messages[0].data)] + Payloads(messages[1..])
  }

  /** Events that can be read back, and that the receiver takes one after the other. */
  predicate Sendable(messages: seq<Message>, seen: seq<Bytes>, refuses: Receiver) {
    messages != [] ==>
      var payload := Received(messages[0].data);
      && Fits(messages[0].event, messages[0].data) && payload != DONE && !refuses(seen + [payload])
      && Sendable(messages[1..], seen + [payload], refuses)
  }

  lemma BehindTwice(first: Bytes, more: seq<Bytes>, r: Reading)
    ensures Behind([first], Behind(more, r)) == Behind([first] + more, r)
  {
    assert [first] + (more + r.delivered) == [first] + more + r.delivered;
  }

  /** Round trip: any number of written events are read back in order, whatever follows them. */
  lemma {:induction false} StreamRoundTrip(messages: seq<Message>, rest: Bytes, seen: seq<Bytes>, refuses: Receiver)
    requires Sendable(messages, seen, refuses)
    ensures Interpret(WrittenAll(messages) + rest, [], seen, refuses) ==
            Behind(Payloads(messages), Interpret(rest, [], seen + Payloads(messages), refuses))
  {
    if messages == [] {
      assert WrittenAll(messages) + rest == rest;
      assert seen + Payloads(messages) == seen;
      assert Payloads(messages) + Interpret(rest, [], seen, refuses).delivered ==
             Interpret(rest, [], seen, refuses).delivered;
    } else {
      var head, tail := messages[0], messages[1..];
      var payload := Received(head.data);
      Regroup(Written(head.event, head.data), WrittenAll(tail), rest);
      WrittenIsRead(head.event, head.data, WrittenAll(tail) + rest, seen, refuses);
      StreamRoundTrip(tail, rest, seen + [payload], refuses);
      assert seen + [payload] + Payloads(tail) == seen + Payloads(messages);
      BehindTwice(payload, Payloads(tail), Interpret(rest, [], seen + Payloads(messages), refuses));
    }
  }

  lemma {:induction false} PayloadsSame(messages: seq<Message>)
    requires forall i :: 0 <= i < |messages| ==> Received(messages[i].data) == messages[i].data
    ensures |Payloads(messages)| == |messages| && forall i :: 0 <= i < |messages| ==>
      Payloads(messages)[i] == messages[i].data
  {
    if messages != [] {
      PayloadsSame(messages[1..]);
    }
  }

  /** A whole stream of messages without carriage returns at the ends of lines delivers exactly their
      payloads; then its end is not an expected one. */
  lemma WholeStream(messages: seq<Message>, refuses: Receiver)
    requires Sendable(messages, [], refuses) && forall i :: 0 <= i < |messages| ==>
      Received(messages[i].data) == messages[i].data
    ensures var r := Interpret(WrittenAll(messages), [], [], refuses);
            && r.ending == UnexpectedEnd && |r.delivered| == |messages|
            && forall i :: 0 <= i < |messages| ==> r.delivered[i] == messages[i].data
  {
    StreamRoundTrip(messages, [], [], refuses);
    PayloadsSame(messages);
    assert WrittenAll(messages) + [] == WrittenAll(messages);
    assert Payloads(messages) + [] == Payloads(messages);
  }
}
