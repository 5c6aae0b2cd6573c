/** The reader of a streamed companion turn: text chunks of any size are reassembled into lines,
    every line is one JSON frame, and the callbacks see the frames in order.

    The reader works on a buffer that is refilled chunk by chunk. The reference definition splits
    the whole text at newlines. Main result: they agree, however the text was cut. */
module TurnStream {
  import opened Common

  const FRAME_SCHEMA := "vexlife.browser-companion-turn-stream-frame/v1"
  const PROGRESS_SCHEMA := "vexlife.capability-assimilation-progress/v1"
  const REASONING_SCHEMA := "vexlife.lived-companion-reasoning-delta/v1"

  datatype Event =
    | Progress(payload: Json)
    | Reasoning(payload: Json)
    | Delta(payload: Json)

  datatype Failure =
    | JsonSyntax
    | FrameContract
    | ProgressContract
    | ReasoningContract
    | DeltaContract
    | FrameType
    | CallbackThrew
    | PartialFrame
    | NoTerminal

  /** JSON.parse, and the callbacks: `throws` says whether the last callback of a trace throws, given
      everything the callbacks have seen so far. An absent callback sees nothing. */
  datatype Host = Host(parse: string -> Option<Json>, throws: seq<Event> -> bool,
                       onProgress: bool, onReasoning: bool, onDelta: bool)

  /** What reading has done so far. `terminal` is the payload of the last terminal frame, None for
      null or undefined. */
  datatype Reading = Reading(trace: seq<Event>, terminal: Option<Json>, failure: Option<Failure>)

  const START := Reading([], None, None)

  datatype Outcome = Returned(terminal: Json) | Threw(failure: Failure)

  datatype Result = Result(trace: seq<Event>, outcome: Outcome)

  // ----- one line -----

  predicate FrameValid(frame: Json) {
    && Get(Some(frame), "schemaVersion") == Some(Str(FRAME_SCHEMA))
    && IsPositiveInteger(Get(Some(frame), "sequence"))
  }

  predicate ProgressValid(p: Option<Json>) {
    && Get(p, "schemaVersion") == Some(Str(PROGRESS_SCHEMA))
    && IsStr(Get(p, "state"))
    && Get(p, "hiddenReasoningIncluded") == Some(Bool(false))
  }

  predicate ReasoningValid(p: Option<Json>) {
    && Get(p, "schemaVersion") == Some(Str(REASONING_SCHEMA))
    && Get(p, "truthClass") == Some(Str("EPHEMERAL_MODEL_EMITTED_REASONING"))
    && NonEmptyStr(Get(p, "reasoningDelta"))
    && IsPositiveInteger(Get(p, "accumulatedReasoningCharacters"))
    && Get(p, "humanProjection") == Some(Str("SEALED_EXPLICIT_OPEN_ONLY"))
    && Get(p, "rawPersisted") == Some(Bool(false))
    && Get(p, "effectsPerformed") == Some(Bool(false))
  }

  predicate DeltaValid(p: Option<Json>) {
    && Get(p, "truthClass") == Some(Str("EPHEMERAL_LOCAL_MODEL_PROGRESS"))
    && IsStr(Get(p, "contentDelta"))
    && Get(p, "effectsPerformed") == Some(Bool(false))
  }

  /** What the contract makes of one complete line. */
  datatype Verdict =
    | Blank
    | Rejected(failure: Failure)
    | Terminal(payload: Option<Json>)
    | Callback(event: Event, present: bool)

  function JudgeFrame(h: Host, frame: Json): Verdict {
    var kind, payload := Get(Some(frame), "frameType"), Get(Some(frame), "payload");
    if !FrameValid(frame) then Rejected(FrameContract)
    else if kind == Some(Str("PROGRESS")) then
      if ProgressValid(payload) then Callback(Progress(payload.value), h.onProgress) else Rejected(ProgressContract)
    else if kind == Some(Str("REASONING")) then
      if ReasoningValid(payload) then Callback(Reasoning(payload.value), h.onReasoning) else Rejected(ReasoningContract)
    else if kind == Some(Str("DELTA")) then
      if DeltaValid(payload) then Callback(Delta(payload.value), h.onDelta) else Rejected(DeltaContract)
    else if kind == Some(Str("FINAL")) || kind == Some(Str("FAILURE")) then Terminal(payload)
    else Rejected(FrameType)
  }

  function Judge(h: Host, line: string): Verdict {
    var text := Trim(line);
    if text == "" then Blank
    else
      match h.parse(text)
      case None => Rejected(JsonSyntax)
      case Some(frame) => JudgeFrame(h, frame)
  }

  type Contract = string -> Verdict

  type Throws = seq<Event> -> bool

  function ContractOf(h: Host): Contract { line => Judge(h, line) }

  function OnLine(c: Contract, throws: Throws, r: Reading, line: string): Reading {
    match c(line)
    case Blank => r
    case Rejected(f) => r.(failure := Some(f))
    case Terminal(payload) => r.(terminal := payload)
    case Callback(event, present) =>
      if !present then r
      else
        var trace := r.trace + [event];
        r.(trace := trace, failure := if throws(trace) then Some(CallbackThrew) else r.failure)
  }

  type Step = (Reading, string) -> Reading

  function LineStep(c: Contract, throws: Throws): Step { (r, line) => OnLine(c, throws, r, line) }

  /** Consuming lines in order; a failed reading consumes nothing more. */
  function OnLines(step: Step, r: Reading, lines: seq<string>): Reading
    decreases |lines|
  {
    if lines == [] || r.failure.Some? then r else OnLines(step, step(r, lines[0]), lines[1..])
  }

  // ----- the reference: split the whole text at newlines -----

  /** The position of the first newline, or the length of the text. */
  function NewlineAt(text: string): (n: nat)
    ensures n <= |text|
  {
    if text == "" || text[0] == '\n' then 0 else 1 + NewlineAt(text[1..])
  }

  lemma {:induction false} NewlineAtFirst(text: string)
    ensures NewlineAt(text) < |text| ==> text[NewlineAt(text)] == '\n'
    ensures '\n' !in text[..NewlineAt(text)]
  {
    if text != "" && text[0] != '\n' {
      NewlineAtFirst(text[1..]);
      assert text[..NewlineAt(text)] == [text[0]] + text[1..][..NewlineAt(text[1..])];
    }
  }

  /** The complete lines of a text, without their newlines. */
  function Lines(text: string): seq<string>
    decreases |text|
  {
    var n := NewlineAt(text);
    if n == |text| then [] else [text[..n]] + Lines(text[n+1..])
  }

  /** What follows the last newline. */
  function Tail(text: string): string
    decreases |text|
  {
    var n := NewlineAt(text);
    if n == |text| then text else Tail(text[n+1..])
  }

  function Unlines(lines: seq<string>): string {
    if lines == [] then "" else lines[0] + "\n" + Unlines(lines[1..])
  }

  lemma UnlinesCons(line: string, lines: seq<string>)
    ensures Unlines([line] + lines) == line + "\n" + Unlines(lines)
  {
    assert ([line] + lines)[1..] == lines;
  }

  lemma LinesCons(text: string, line: string, rest: string)
    requires NewlineAt(text) < |text| && line == text[..NewlineAt(text)] && rest == text[NewlineAt(text)+1..]
    ensures Lines(text) == [line] + Lines(rest)
    ensures Tail(text) == Tail(rest)
  {
  }

  /** Lines and Tail are the unique splitting of a text at its newlines: no piece holds a newline, and
      joining the pieces with newlines gives the text back. */
  lemma {:induction false} LinesJoin(text: string)
    ensures Unlines(Lines(text)) + Tail(text) == text
    decreases |text|
  {
    var n := NewlineAt(text);
    if n < |text| {
      var line, rest := text[..n], text[n+1..];
      LinesJoin(rest);
      LinesCons(text, line, rest);
      JoinCons(line, Lines(rest), Tail(rest), rest);
      NewlineAtFirst(text);
      CutAt(text, n);
    }
  }

  lemma JoinCons(line: string, lines: seq<string>, tail: string, rest: string)
    requires Unlines(lines) + tail == rest
    ensures Unlines([line] + lines) + tail == line + "\n" + rest
  {
    UnlinesCons(line, lines);
  }

  lemma CutAt(text: string, n: nat)
    requires n < |text| && text[n] == '\n'
    ensures text == text[..n] + "\n" + text[n+1..]
  {
  }

  lemma {:induction false} LinesFree(text: string)
    ensures '\n' !in Tail(text) && forall l | l in Lines(text) :: '\n' !in l
    decreases |text|
  {
    var n := NewlineAt(text);
    NewlineAtFirst(text);
    if n < |text| {
      LinesCons(text, text[..n], text[n+1..]);
      LinesFree(text[n+1..]);
    } else {
      assert text[..n] == text;
    }
  }

  function Finish(r: Reading, rest: string): Outcome {
    if r.failure.Some? then Threw(r.failure.value)
    else if Trim(rest) != "" then Threw(PartialFrame)
    else if !Truthy(r.terminal) then Threw(NoTerminal)
    else Returned(r.terminal.value)
  }

  /** The meaning of a streamed text: its lines are consumed in order and its tail must be blank. */
  function ReadWhole(step: Step, text: string): Result {
    var r := OnLines(step, START, Lines(text));
    Result(r.trace, Finish(r, Tail(text)))
  }

  // ----- how splitting meets concatenation -----

  lemma {:induction false} NewlineAtAppend(a: string, b: string)
    ensures NewlineAt(a + b) == if NewlineAt(a) < |a| then NewlineAt(a) else |a| + NewlineAt(b)
  {
    if a == "" {
      assert a + b == b;
    } else if a[0] != '\n' {
      NewlineAtAppend(a[1..], b);
      assert (a + b)[1..] == a[1..] + b;
    }
  }

  lemma ConsAppend<T>(x: T, a: seq<T>, b: seq<T>)
    ensures [x] + (a + b) == [x] + a + b
  {
  }

  lemma {:induction false} LinesAppend(a: string, b: string)
    ensures Lines(a + b) == Lines(a) + Lines(Tail(a) + b)
    ensures Tail(a + b) == Tail(Tail(a) + b)
    decreases |a|
  {
    NewlineAtAppend(a, b);
    var n := NewlineAt(a);
    if n < |a| {
      var rest := a[n+1..];
      LinesAppend(rest, b);
      assert (a + b)[..n] == a[..n] && (a + b)[n+1..] == rest + b;
      LinesCons(a + b, a[..n], rest + b);
      LinesCons(a, a[..n], rest);
      ConsAppend(a[..n], Lines(rest), Lines(Tail(rest) + b));
    }
  }

  lemma {:induction false} OnLinesAppend(step: Step, r: Reading, a: seq<string>, b: seq<string>)
    ensures OnLines(step, r, a + b) == OnLines(step, OnLines(step, r, a), b)
    decreases |a|
  {
    if a == [] {
      assert a + b == b;
    } else if r.failure.None? {
      assert (a + b)[1..] == a[1..] + b;
      OnLinesAppend(step, step(r, a[0]), a[1..], b);
    }
  }

  /** Reading on: the text received later only adds to the reading of the text received before. */
  lemma ReadOn(step: Step, a: string, b: string)
    ensures OnLines(step, START, Lines(a + b)) == OnLines(step, OnLines(step, START, Lines(a)), Lines(Tail(a) + b))
    ensures Tail(a + b) == Tail(Tail(a) + b)
  {
    LinesAppend(a, b);
    OnLinesAppend(step, START, Lines(a), Lines(Tail(a) + b));
  }

  lemma OnLinesCons(step: Step, r: Reading, line: string, lines: seq<string>)
    requires r.failure.None?
    ensures OnLines(step, r, [line] + lines) == OnLines(step, step(r, line), lines)
  {
    assert ([line] + lines)[1..] == lines;
  }

  lemma OnFirstLine(step: Step, r: Reading, buffer: string, line: string, rest: string)
    requires NewlineAt(buffer) < |buffer| && r.failure.None?
    requires line == buffer[..NewlineAt(buffer)] && rest == buffer[NewlineAt(buffer)+1..]
    ensures OnLines(step, r, Lines(buffer)) == OnLines(step, step(r, line), Lines(rest))
    ensures Tail(buffer) == Tail(rest)
  {
    LinesCons(buffer, line, rest);
    OnLinesCons(step, r, line, Lines(rest));
  }

  // ----- the reader -----

  class Reader {
    const step: Step
    var buffer: string
    var reading: Reading
    ghost var received: string  // the text decoded so far

    /** Between chunks the reading is that of the whole text received so far, and the buffer is its
        unfinished line. After a failure nothing more is consumed. */
    ghost predicate Valid()
      reads this
    {
      && reading == OnLines(step, START, Lines(received))
      && (reading.failure.None? ==> buffer == Tail(received))
    }

    constructor (step: Step)
      ensures Valid() && this.step == step && received == ""
    {
      this.step, buffer, reading, received := step, "", START, "";
    }

    /** One decoded chunk: append it to the buffer and take off every complete line. */
    method Accept(chunk: string)
      requires Valid() && reading.failure.None?
      modifies this
      ensures Valid() && received == old(received) + chunk
    {
      ReadOn(step, received, chunk);
      received := received + chunk;
      buffer := buffer + chunk;
      while true
        invariant OnLines(step, reading, Lines(buffer)) == OnLines(step, START, Lines(received))
        invariant reading.failure.None? && Tail(buffer) == Tail(received)
        invariant received == old(received) + chunk
        decreases |buffer|
      {
        var newline := NewlineAt(buffer);
        if newline == |buffer| {
          assert Lines(buffer) == [];
          break;
        }
        var line := buffer[..newline];
        OnFirstLine(step, reading, buffer, line, buffer[newline+1..]);
        buffer := buffer[newline+1..];
        reading := step(reading, line);
        if reading.failure.Some? {
          return;
        }
      }
    }

    /** The read loop over the chunks of a response body; it stops at the first failure. */
    method Read(chunks: seq<string>) returns (result: Result)
      requires Valid() && received == ""
      modifies this
      ensures result == ReadWhole(step, Flatten(chunks))
    {
      assert chunks[..0] == [] && chunks[..|chunks|] == chunks;
      for k := 0 to |chunks|
        invariant Valid() && reading.failure.None?
        invariant received == Flatten(chunks[..k])
      {
        Accept(chunks[k]);
        assert chunks[..k+1] == chunks[..k] + [chunks[k]];
        FlattenSnoc(chunks[..k], chunks[k]);
        if reading.failure.Some? {
          FlattenAppend(chunks[..k+1], chunks[k+1..]);
          assert chunks[..k+1] + chunks[k+1..] == chunks;
          ReadOn(step, received, Flatten(chunks[k+1..]));
          return Result(reading.trace, Threw(reading.failure.value));
        }
      }
      result := Result(reading.trace, Finish(reading, buffer));
    }
  }

  // ----- what a stream delivers -----

  lemma {:induction false} TraceGrows(c: Contract, throws: Throws, r: Reading, lines: seq<string>)
    ensures r.trace <= OnLines(LineStep(c, throws), r, lines).trace
    decreases |lines|
  {
    if lines != [] && r.failure.None? {
      TraceGrows(c, throws, OnLine(c, throws, r, lines[0]), lines[1..]);
    }
  }

  /** A stream that breaks off has made exactly a prefix of the callbacks of the complete stream. */
  lemma PrefixRead(c: Contract, throws: Throws, a: string, b: string)
    ensures ReadWhole(LineStep(c, throws), a).trace <= ReadWhole(LineStep(c, throws), a + b).trace
  {
    var step := LineStep(c, throws);
    ReadOn(step, a, b);
    TraceGrows(c, throws, OnLines(step, START, Lines(a)), Lines(Tail(a) + b));
  }

  /** Index of the last terminal line, or the number of lines. */
  function LastTerminal(c: Contract, lines: seq<string>): (k: nat)
    ensures k <= |lines| && (k < |lines| ==> c(lines[k]).Terminal?)
    ensures forall j :: k < j < |lines| ==> !c(lines[j]).Terminal?
    ensures k == |lines| ==> forall j :: 0 <= j < |lines| ==> !c(lines[j]).Terminal?
  {
    if lines == [] then 0
    else
      var k := LastTerminal(c, lines[1..]);
      if k < |lines| - 1 then k + 1 else if c(lines[0]).Terminal? then 0 else |lines|
  }

  lemma {:induction false} TerminalIsLast(c: Contract, throws: Throws, r: Reading, lines: seq<string>)
    requires OnLines(LineStep(c, throws), r, lines).failure.None?
    ensures OnLines(LineStep(c, throws), r, lines).terminal ==
              var k := LastTerminal(c, lines);
              if k < |lines| then c(lines[k]).payload else r.terminal
    decreases |lines|
  {
    if lines != [] {
      TerminalIsLast(c, throws, OnLine(c, throws, r, lines[0]), lines[1..]);
    }
  }

  /** The callback, if any, that a line is due. */
  function EventsOf(v: Verdict): seq<Event> {
    if v.Callback? && v.present then [v.event] else []
  }

  function EventsOfAll(c: Contract, lines: seq<string>): seq<Event> {
    if lines == [] then [] else EventsOf(c(lines[0])) + EventsOfAll(c, lines[1..])
  }

  /** No callback throws while `events` follow on what the callbacks have already seen. */
  predicate Quiet(throws: Throws, seen: seq<Event>, events: seq<Event>)
    decreases |events|
  {
    events == [] || (!throws(seen + [events[0]]) && Quiet(throws, seen + [events[0]], events[1..]))
  }

  lemma {:induction false} QuietAppend(throws: Throws, seen: seq<Event>, a: seq<Event>, b: seq<Event>)
    ensures Quiet(throws, seen, a + b) <==> Quiet(throws, seen, a) && Quiet(throws, seen + a, b)
    decreases |a|
  {
    if a == [] {
      assert a + b == b && seen + a == seen;
    } else {
      QuietAppend(throws, seen + [a[0]], a[1..], b);
      assert (a + b)[1..] == a[1..] + b;
      assert seen + [a[0]] + a[1..] == seen + a;
    }
  }

  lemma {:induction false} LinesSucceedExactly(c: Contract, throws: Throws, r: Reading, lines: seq<string>)
    requires r.failure.None?
    ensures OnLines(LineStep(c, throws), r, lines).failure.None? <==>
              (forall l | l in lines :: !c(l).Rejected?) && Quiet(throws, r.trace, EventsOfAll(c, lines))
    ensures OnLines(LineStep(c, throws), r, lines).failure.None? ==>
              OnLines(LineStep(c, throws), r, lines).trace == r.trace + EventsOfAll(c, lines)
    decreases |lines|
  {
    if lines != [] {
      var line, rest := lines[0], lines[1..];
      var next := OnLine(c, throws, r, line);
      QuietAppend(throws, r.trace, EventsOf(c(line)), EventsOfAll(c, rest));
      assert lines == [line] + rest;
      LineSucceeds(c, throws, r, line);
      if next.failure.None? {
        LinesSucceedExactly(c, throws, next, rest);
        TraceJoins(r.trace, EventsOf(c(line)), EventsOfAll(c, rest));
      }
    }
  }

  lemma TraceJoins(a: seq<Event>, b: seq<Event>, c: seq<Event>)
    ensures (a + b) + c == a + (b + c)
  {
  }

  lemma LineSucceeds(c: Contract, throws: Throws, r: Reading, line: string)
    requires r.failure.None?
    ensures var next := OnLine(c, throws, r, line);
            && (next.failure.None? <==> !c(line).Rejected? && Quiet(throws, r.trace, EventsOf(c(line))))
            && (next.failure.None? ==> next.trace == r.trace + EventsOf(c(line)))
  {
  }

  /** Exactly when a turn is read successfully: every line is admitted, no callback throws, the tail is
      blank, and the last terminal line carries a truthy payload. Then that payload is returned, and the
      callbacks have seen one call for every admitted line that has one, in order. */
  lemma ReadSucceedsExactly(c: Contract, throws: Throws, text: string)
    ensures var result, k := ReadWhole(LineStep(c, throws), text), LastTerminal(c, Lines(text));
            result.outcome.Returned? <==>
              && (forall l | l in Lines(text) :: !c(l).Rejected?)
              && Quiet(throws, [], EventsOfAll(c, Lines(text)))
              && Trim(Tail(text)) == ""
              && k < |Lines(text)| && Truthy(c(Lines(text)[k]).payload)
    ensures var result, k := ReadWhole(LineStep(c, throws), text), LastTerminal(c, Lines(text));
            result.outcome.Returned? ==>
              && result.trace == EventsOfAll(c, Lines(text))
              && Some(result.outcome.terminal) == c(Lines(text)[k]).payload
  {
    LinesSucceedExactly(c, throws, START, Lines(text));
    if OnLines(LineStep(c, throws), START, Lines(text)).failure.None? {
      TerminalIsLast(c, throws, START, Lines(text));
    }
  }

  // ----- the frames of a turn, by their members -----

  /** A whole number from 1 up to the largest the browser holds exactly. */
  ghost predicate Counts(v: Option<Json>) {
    && v.Some? && v.value.Number? && v.value.n.Floor as real == v.value.n
    && 1.0 <= v.value.n <= 9007199254740991.0
  }

  ghost predicate Says(v: Option<Json>, member: string, text: string) { Get(v, member) == Some(Str(text)) }

  ghost predicate Denies(v: Option<Json>, member: string) { Get(v, member) == Some(Bool(false)) }

  ghost predicate Frame(f: Option<Json>, kind: string) {
    && Says(f, "schemaVersion", "vexlife.browser-companion-turn-stream-frame/v1") && Counts(Get(f, "sequence"))
    && Says(f, "frameType", kind)
  }

  ghost predicate IsProgress(f: Option<Json>) {
    && Frame(f, "PROGRESS")
    && var p := Get(f, "payload");
       && Says(p, "schemaVersion", "vexlife.capability-assimilation-progress/v1")
       && Get(p, "state").Some? && Get(p, "state").value.Str?
       && Denies(p, "hiddenReasoningIncluded")
  }

  ghost predicate IsReasoning(f: Option<Json>) {
    && Frame(f, "REASONING")
    && var p := Get(f, "payload");
       && Says(p, "schemaVersion", "vexlife.lived-companion-reasoning-delta/v1")
       && Says(p, "truthClass", "EPHEMERAL_MODEL_EMITTED_REASONING")
       && Get(p, "reasoningDelta").Some? && Get(p, "reasoningDelta").value.Str?
       && |Get(p, "reasoningDelta").value.s| > 0
       && Counts(Get(p, "accumulatedReasoningCharacters"))
       && Says(p, "humanProjection", "SEALED_EXPLICIT_OPEN_ONLY")
       && Denies(p, "rawPersisted") && Denies(p, "effectsPerformed")
  }

  ghost predicate IsDelta(f: Option<Json>) {
    && Frame(f, "DELTA")
    && var p := Get(f, "payload");
       && Says(p, "truthClass", "EPHEMERAL_LOCAL_MODEL_PROGRESS")
       && Get(p, "contentDelta").Some? && Get(p, "contentDelta").value.Str?
       && Denies(p, "effectsPerformed")
  }

  ghost predicate IsTerminal(f: Option<Json>) { Frame(f, "FINAL") || Frame(f, "FAILURE") }

  ghost predicate IsFrame(f: Option<Json>) { IsProgress(f) || IsReasoning(f) || IsDelta(f) || IsTerminal(f) }

  /** What the callbacks are to be told of a frame. */
  ghost function Told(h: Host, f: Option<Json>): seq<Event> {
    if IsProgress(f) && h.onProgress then [Progress(Get(f, "payload").value)]
    else if IsReasoning(f) && h.onReasoning then [Reasoning(Get(f, "payload").value)]
    else if IsDelta(f) && h.onDelta then [Delta(Get(f, "payload").value)]
    else []
  }

  ghost predicate AllBlank(line: string) { forall k :: 0 <= k < |line| ==> IsSpace(line[k]) }

  /** The JSON value of a line. */
  function FrameOf(h: Host, line: string): Option<Json> { h.parse(Trim(line)) }

  ghost predicate GoodLine(h: Host, line: string) { AllBlank(line) || IsFrame(FrameOf(h, line)) }

  ghost function ToldOf(h: Host, line: string): seq<Event> {
    if AllBlank(line) then [] else Told(h, FrameOf(h, line))
  }

  /** What the callbacks are to be told of a text, in the order of its lines. */
  ghost function ToldOfAll(h: Host, lines: seq<string>): seq<Event> {
    if lines == [] then [] else ToldOf(h, lines[0]) + ToldOfAll(h, lines[1..])
  }

  lemma FrameExactly(f: Json)
    ensures FrameValid(f) <==>
              Says(Some(f), "schemaVersion", "vexlife.browser-companion-turn-stream-frame/v1")
              && Counts(Get(Some(f), "sequence"))
  {
  }

  lemma PayloadsExactly(f: Json)
    requires FrameValid(f)
    ensures IsProgress(Some(f)) <==> Says(Some(f), "frameType", "PROGRESS") && ProgressValid(Get(Some(f), "payload"))
    ensures IsReasoning(Some(f)) <==> Says(Some(f), "frameType", "REASONING") && ReasoningValid(Get(Some(f), "payload"))
    ensures IsDelta(Some(f)) <==> Says(Some(f), "frameType", "DELTA") && DeltaValid(Get(Some(f), "payload"))
    ensures IsTerminal(Some(f)) <==> Says(Some(f), "frameType", "FINAL") || Says(Some(f), "frameType", "FAILURE")
  {
    FrameExactly(f);
  }

  /** What is wrong with a line that holds no frame. */
  ghost function Wrong(f: Option<Json>): Failure {
    if f.None? then JsonSyntax
    else if !Says(f, "schemaVersion", "vexlife.browser-companion-turn-stream-frame/v1")
            || !Counts(Get(f, "sequence")) then FrameContract
    else if Says(f, "frameType", "PROGRESS") then ProgressContract
    else if Says(f, "frameType", "REASONING") then ReasoningContract
    else if Says(f, "frameType", "DELTA") then DeltaContract
    else FrameType
  }

  /** A frame is admitted exactly when its members say it is one, and then for what they say. */
  lemma FrameJudged(h: Host, f: Json)
    ensures var v := JudgeFrame(h, f);
            && (IsFrame(Some(f)) <==> !v.Rejected?) && !v.Blank?
            && EventsOf(v) == Told(h, Some(f))
            && (IsTerminal(Some(f)) <==> v.Terminal?)
            && (v.Terminal? ==> v.payload == Get(Some(f), "payload"))
            && (v.Rejected? ==> v.failure == Wrong(Some(f)))
  {
    FrameExactly(f);
    if FrameValid(f) {
      PayloadsExactly(f);
    }
  }

  lemma LineJudged(h: Host, line: string)
    ensures var v, f := Judge(h, line), FrameOf(h, line);
            && (GoodLine(h, line) <==> !v.Rejected?) && (AllBlank(line) <==> v.Blank?)
            && EventsOf(v) == ToldOf(h, line)
            && (!AllBlank(line) && IsTerminal(f) <==> v.Terminal?)
            && (v.Terminal? ==> v.payload == Get(f, "payload"))
            && (v.Rejected? ==> v.failure == Wrong(f))
  {
    TrimBlank(line);
    var f := FrameOf(h, line);
    if f.Some? {
      FrameJudged(h, f.value);
    }
  }

  /** No callback throws on any of these events. */
  ghost predicate Undisturbed(throws: Throws, events: seq<Event>) {
    forall n :: 0 < n <= |events| ==> !throws(events[..n])
  }

  lemma {:induction false} QuietExactly(throws: Throws, events: seq<Event>)
    ensures Quiet(throws, [], events) <==> Undisturbed(throws, events)
  {
    if events != [] {
      var init, last := events[..|events|-1], events[|events|-1];
      QuietExactly(throws, init);
      QuietAppend(throws, [], init, [last]);
      assert events == init + [last] && [] + init == init;
      assert events[..|events|] == events;
      assert forall n :: 0 < n <= |init| ==> init[..n] == events[..n];
    }
  }

  lemma {:induction false} ToldAll(h: Host, lines: seq<string>)
    ensures EventsOfAll(ContractOf(h), lines) == ToldOfAll(h, lines)
  {
    if lines != [] {
      LineJudged(h, lines[0]);
      ToldAll(h, lines[1..]);
    }
  }

  ghost predicate HoldsTerminal(h: Host, line: string) { !AllBlank(line) && IsTerminal(FrameOf(h, line)) }

  ghost predicate LastTerminalAt(h: Host, lines: seq<string>, k: int) {
    && 0 <= k < |lines| && HoldsTerminal(h, lines[k])
    && forall j :: k < j < |lines| ==> !HoldsTerminal(h, lines[j])
  }

  function PayloadOf(h: Host, line: string): Option<Json> { Get(FrameOf(h, line), "payload") }

  /** Neither missing, null, false, zero nor empty. */
  ghost predicate Present(v: Option<Json>) {
    v.Some? && v.value != Null && v.value != Bool(false) && v.value != Number(0.0) && v.value != Str("")
  }

  /** Every line of the text that is not blank holds a frame, and no callback throws. */
  ghost predicate Smooth(h: Host, lines: seq<string>) {
    (forall l | l in lines :: GoodLine(h, l)) && Undisturbed(h.throws, ToldOfAll(h, lines))
  }

  /** The text ends with a newline or blanks, and its last terminal frame carries something. */
  ghost predicate Concluded(h: Host, text: string) {
    && AllBlank(Tail(text))
    && exists k :: LastTerminalAt(h, Lines(text), k) && Present(PayloadOf(h, Lines(text)[k]))
  }

  lemma TerminalJudged(h: Host, lines: seq<string>)
    ensures var k := LastTerminal(ContractOf(h), lines);
            && (k < |lines| ==> LastTerminalAt(h, lines, k)
                                && ContractOf(h)(lines[k]).payload == PayloadOf(h, lines[k]))
            && forall j :: LastTerminalAt(h, lines, j) ==> j == k
  {
    forall j | 0 <= j < |lines|
      ensures ContractOf(h)(lines[j]).Terminal? <==> HoldsTerminal(h, lines[j])
      ensures ContractOf(h)(lines[j]).Terminal? ==> ContractOf(h)(lines[j]).payload == PayloadOf(h, lines[j])
    {
      LineJudged(h, lines[j]);
    }
  }

  lemma SmoothExactly(h: Host, lines: seq<string>)
    ensures Smooth(h, lines) <==>
              && (forall l | l in lines :: !ContractOf(h)(l).Rejected?)
              && Quiet(h.throws, [], EventsOfAll(ContractOf(h), lines))
  {
    forall l | l in lines ensures !ContractOf(h)(l).Rejected? <==> GoodLine(h, l) {
      LineJudged(h, l);
    }
    ToldAll(h, lines);
    QuietExactly(h.throws, ToldOfAll(h, lines));
  }

  lemma ConcludedExactly(h: Host, text: string)
    ensures var k := LastTerminal(ContractOf(h), Lines(text));
            Concluded(h, text) <==>
              && Trim(Tail(text)) == "" && k < |Lines(text)|
              && Truthy(ContractOf(h)(Lines(text)[k]).payload)
  {
    TerminalJudged(h, Lines(text));
    TrimBlank(Tail(text));
  }

  /** A turn is read exactly when every line that is not blank holds a well-formed frame, no callback throws, no
      partial frame is left, and the last terminal frame carries something: that is returned, and the callbacks
      saw the payloads of their own frames in order. */
  lemma TurnReadExactly(h: Host, text: string)
    ensures var result := ReadWhole(LineStep(ContractOf(h), h.throws), text);
            && (result.outcome.Returned? <==> Smooth(h, Lines(text)) && Concluded(h, text))
            && (result.outcome.Returned? ==>
                  && result.trace == ToldOfAll(h, Lines(text))
                  && forall k :: LastTerminalAt(h, Lines(text), k) ==>
                       PayloadOf(h, Lines(text)[k]) == Some(result.outcome.terminal))
  {
    ReadSucceedsExactly(ContractOf(h), h.throws, text);
    SmoothExactly(h, Lines(text));
    ToldAll(h, Lines(text));
    ConcludedExactly(h, text);
    TerminalJudged(h, Lines(text));
  }

  lemma FailedStays(step: Step, r: Reading, lines: seq<string>)
    requires r.failure.Some?
    ensures OnLines(step, r, lines) == r
  {
  }

  /** How far the lines before one are read when they are smooth. */
  lemma ReadUpTo(h: Host, lines: seq<string>, k: nat)
    requires k < |lines| && Smooth(h, lines[..k])
    ensures var step := LineStep(ContractOf(h), h.throws);
            var r := OnLines(step, START, lines[..k]);
            && r.failure.None? && r.trace == ToldOfAll(h, lines[..k])
            && (step(r, lines[k]).failure.Some? ==> OnLines(step, START, lines) == step(r, lines[k]))
  {
    var step := LineStep(ContractOf(h), h.throws);
    SmoothExactly(h, lines[..k]);
    ToldAll(h, lines[..k]);
    LinesSucceedExactly(ContractOf(h), h.throws, START, lines[..k]);
    OnLinesAppend(step, START, lines[..k], lines[k..]);
    assert lines[..k] + lines[k..] == lines && lines[k..] == [lines[k]] + lines[k+1..];
    var r := OnLines(step, START, lines[..k]);
    OnLinesCons(step, r, lines[k], lines[k+1..]);
    if step(r, lines[k]).failure.Some? {
      FailedStays(step, step(r, lines[k]), lines[k+1..]);
    }
  }

  /** The first line that holds no frame ends the turn with what is wrong with it, after the callbacks of the
      lines before it. */
  lemma BadLineThrows(h: Host, text: string, k: nat)
    requires k < |Lines(text)| && Smooth(h, Lines(text)[..k]) && !GoodLine(h, Lines(text)[k])
    ensures ReadWhole(LineStep(ContractOf(h), h.throws), text) ==
              Result(ToldOfAll(h, Lines(text)[..k]), Threw(Wrong(FrameOf(h, Lines(text)[k]))))
  {
    ReadUpTo(h, Lines(text), k);
    LineJudged(h, Lines(text)[k]);
  }

  lemma CallThrows(h: Host, r: Reading, line: string, e: Event)
    requires ToldOf(h, line) == [e] && h.throws(r.trace + [e])
    ensures OnLine(ContractOf(h), h.throws, r, line) == Reading(r.trace + [e], r.terminal, Some(CallbackThrew))
  {
    LineJudged(h, line);
    var v := Judge(h, line);
    assert EventsOf(v) == [e];
  }

  /** The first callback that throws ends the turn, after it was called. */
  lemma CallbackThrows(h: Host, text: string, k: nat, before: seq<Event>, e: Event)
    requires k < |Lines(text)| && Smooth(h, Lines(text)[..k]) && before == ToldOfAll(h, Lines(text)[..k])
    requires ToldOf(h, Lines(text)[k]) == [e] && h.throws(before + [e])
    ensures ReadWhole(LineStep(ContractOf(h), h.throws), text) == Result(before + [e], Threw(CallbackThrew))
  {
    ReadUpTo(h, Lines(text), k);
    CallThrows(h, OnLines(LineStep(ContractOf(h), h.throws), START, Lines(text)[..k]), Lines(text)[k], e);
  }

  /** A smooth text that is not concluded throws at its end, for the partial frame first. */
  lemma EndThrows(h: Host, text: string)
    requires Smooth(h, Lines(text)) && !Concluded(h, text)
    ensures ReadWhole(LineStep(ContractOf(h), h.throws), text) ==
              Result(ToldOfAll(h, Lines(text)), Threw(if AllBlank(Tail(text)) then NoTerminal else PartialFrame))
  {
    TurnReadExactly(h, text);
    SmoothExactly(h, Lines(text));
    ToldAll(h, Lines(text));
    LinesSucceedExactly(ContractOf(h), h.throws, START, Lines(text));
    TrimBlank(Tail(text));
  }

  /** Reading a companion turn: whatever the cutting into chunks, the result is the meaning of the whole text under
      the frame contract of the host. It returns exactly when the frames are well formed and concluded and no
      callback throws. */
  method ReadTurn(h: Host, chunks: seq<string>) returns (result: Result)
    ensures result == ReadWhole(LineStep(ContractOf(h), h.throws), Flatten(chunks))
    ensures result.outcome.Returned? <==> Smooth(h, Lines(Flatten(chunks))) && Concluded(h, Flatten(chunks))
    ensures result.outcome.Returned? ==>
              && result.trace == ToldOfAll(h, Lines(Flatten(chunks)))
              && forall k :: LastTerminalAt(h, Lines(Flatten(chunks)), k) ==>
                   PayloadOf(h, Lines(Flatten(chunks))[k]) == Some(result.outcome.terminal)
  {
    TurnReadExactly(h, Flatten(chunks));
    var reader := new Reader(LineStep(ContractOf(h), h.throws));
    result := reader.Read(chunks);
  }

  /** Two ways of cutting the same text are read alike: same callbacks, same terminal, same failure. */
  method ReadTwice(h: Host, cut: seq<string>, recut: seq<string>) returns (a: Result, b: Result)
    requires Flatten(cut) == Flatten(recut)
    ensures a == b
  {
    a := ReadTurn(h, cut);
    b := ReadTurn(h, recut);
  }
}
