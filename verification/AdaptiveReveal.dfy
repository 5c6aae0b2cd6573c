/** The adaptive reveal of streamed text: text arrives in deltas, is cut into units, and is shown a few
    units per animation frame at the observed arrival rate.

    `Reveal` is the controller with its mutable fields. Every method is tied to a function on
    `State`, and the promises are proved about runs of those functions: any sequence of pushes, frames,
    finishes and cancels, with any visibility and any clock. */
module AdaptiveReveal {
  import opened Common

  const FRAME_MS := 1000.0 / 60.0
  const DEFAULT_RATE := 1.0 / 18.0
  const EMA_WEIGHT := 0.35
  const FINISH_FRAMES := 2

  /** What the page answers at the moment of an event: is text to be shown at once (reduced motion or
      a hidden page), and are animation frames available. */
  datatype Env = Env(immediate: bool, frames: bool)

  /** The text: units received, units shown, the text last rendered, and every text rendered so far. */
  datatype Text = Text(received: seq<string>, revealed: nat, rendered: Option<string>, renders: seq<string>)

  /** The pacing: arrival units per millisecond, the last clock readings, and the unspent credit. */
  datatype Pace = Pace(rate: real, lastArrival: Option<real>, lastFrame: Option<real>, credit: real)

  /** Finishing: was it asked for, how many frames it has left, was a promise made, is it still open,
      and how often it was resolved. */
  datatype Wait = Wait(finishing: bool, finishFrames: int, promised: bool, open: bool, resolutions: nat)

  datatype State = State(text: Text, pace: Pace, wait: Wait, framePending: bool, cancelled: bool)

  const INITIAL := State(Text([], 0, None, []), Pace(DEFAULT_RATE, None, None, 0.0),
                         Wait(false, FINISH_FRAMES, false, false, 0), false, false)

  function MaxReal(a: real, b: real): real { if a >= b then a else b }

  function MinReal(a: real, b: real): real { if a <= b then a else b }

  function MinInt(a: int, b: int): int { if a <= b then a else b }

  // ----- text -----

  predicate Bounded(t: Text) { t.revealed <= |t.received| }

  function Backlog(t: Text): int { |t.received| - t.revealed }

  function Shown(t: Text): string
    requires Bounded(t)
  {
    Flatten(t.received[..t.revealed])
  }

  function Render(t: Text): Text
    requires Bounded(t)
  {
    var content := Shown(t);
    if t.rendered == Some(content) then t else t.(rendered := Some(content), renders := t.renders + [content])
  }

  /** Show up to `n` more units. */
  function Show(t: Text, n: int): (r: Text)
    requires Bounded(t)
    ensures Bounded(r) && r.received == t.received
  {
    if n > 0 then Render(t.(revealed := t.revealed + MinInt(Backlog(t), n))) else t
  }

  function ShowAll(t: Text): (r: Text)
    ensures Bounded(r) && r.received == t.received && Backlog(r) == 0
  {
    Render(t.(revealed := |t.received|))
  }

  // ----- pacing -----

  function Pressure(backlog: int): real {
    if backlog >= 48 then 3.0
    else if backlog >= 24 then 2.0
    else if backlog >= 12 then 1.4
    else if backlog >= 6 then 1.15
    else 1.0
  }

  function Elapsed(p: Pace, time: real): real {
    if p.lastFrame.None? then FRAME_MS else MinReal(50.0, MaxReal(8.0, time - p.lastFrame.value))
  }

  /** Rate times elapsed time times pressure: what a pacing frame adds to the credit. */
  function Added(p: Pace, backlog: int, time: real): real {
    p.rate * Elapsed(p, time) * Pressure(backlog)
  }

  function Granted(p: Pace, backlog: int, time: real): int {
    (p.credit + Added(p, backlog, time)).Floor
  }

  function Spend(p: Pace, backlog: int, time: real): Pace {
    var credit := p.credit + Added(p, backlog, time);
    var budget := Granted(p, backlog, time);
    p.(lastFrame := Some(time), credit := if budget > 0 then credit - budget as real else credit)
  }

  /** The pace after `n` units arrive at a clock reading; None when the clock gives none. */
  function Arrive(p: Pace, nothingShown: bool, n: nat, at: Option<real>): Pace {
    if at.None? then p
    else if p.lastArrival.None? then
      p.(rate := DEFAULT_RATE, lastArrival := at, credit := if nothingShown then MaxReal(p.credit, 1.0) else p.credit)
    else
      var elapsed := MaxReal(1.0, at.value - p.lastArrival.value);
      p.(rate := p.rate * (1.0 - EMA_WEIGHT) + n as real / elapsed * EMA_WEIGHT, lastArrival := at)
  }

  // ----- control -----

  function CeilDiv(a: int, b: int): int
    requires b > 0
  {
    (a + b - 1) / b
  }

  function SettleWait(w: Wait, allShown: bool): Wait {
    if w.finishing && allShown && w.open then w.(open := false, resolutions := w.resolutions + 1) else w
  }

  function Settle(s: State): State { s.(wait := SettleWait(s.wait, Backlog(s.text) <= 0)) }

  function Flush(s: State): (r: State)
    ensures Bounded(r.text)
  {
    Settle(s.(text := ShowAll(s.text)))
  }

  function Schedule(s: State, env: Env): (r: State)
    requires Bounded(s.text)
    ensures Bounded(r.text)
  {
    if s.cancelled then s
    else if env.immediate || !env.frames then Flush(s.(framePending := false))
    else if s.framePending || Backlog(s.text) <= 0 then Settle(s)
    else s.(framePending := true)
  }

  /** How many units a frame may show: pacing grants by credit, finishing divides the backlog. */
  function Budget(s: State, time: real): int {
    if s.wait.finishing
    then CeilDiv(Backlog(s.text), if s.wait.finishFrames >= 1 then s.wait.finishFrames else 1)
    else Granted(s.pace, Backlog(s.text), time)
  }

  /** A frame on hidden text, before it decides about the next frame. */
  function Reveal1(s: State, time: real): (r: State)
    requires Bounded(s.text)
    ensures Bounded(r.text)
  {
    State(Show(s.text, Budget(s, time)),
          if s.wait.finishing then s.pace.(lastFrame := Some(time)) else Spend(s.pace, Backlog(s.text), time),
          if s.wait.finishing then s.wait.(finishFrames := s.wait.finishFrames - 1) else s.wait,
          false, s.cancelled)
  }

  function Frame(s: State, time: real, env: Env): (r: State)
    requires Bounded(s.text)
    ensures Bounded(r.text)
  {
    if s.cancelled then s.(framePending := false)
    else if Backlog(s.text) <= 0 then Settle(s.(framePending := false))
    else
      var shown := Reveal1(s, time);
      if Backlog(shown.text) > 0 then Schedule(shown, env) else Settle(shown)
  }

  function Receive(s: State, units: seq<string>, at: Option<real>): (r: State)
    requires Bounded(s.text)
    ensures Bounded(r.text)
  {
    s.(pace := Arrive(s.pace, s.text.revealed == 0, |units|, at),
       text := s.text.(received := s.text.received + units))
  }

  function Push(s: State, units: seq<string>, at: Option<real>, env: Env): (r: State)
    requires Bounded(s.text)
    ensures Bounded(r.text)
  {
    if s.cancelled || units == [] then s
    else
      var t := Receive(s, units, at);
      if env.immediate then Flush(t) else Schedule(t, env)
  }

  function AskFinish(w: Wait): Wait {
    Wait(true, FINISH_FRAMES, true, w.open || !w.promised, w.resolutions)
  }

  function Finish(s: State, env: Env): (r: State)
    requires Bounded(s.text)
    ensures Bounded(r.text)
  {
    if s.cancelled || Backlog(s.text) <= 0 then s.(wait := s.wait.(finishing := true))
    else Schedule(s.(wait := AskFinish(s.wait)), env)
  }

  /** Is the promise that a finish returns still pending when it is returned? With nothing hidden, or after a
      cancel, a resolved one is returned; otherwise the one promise of this reveal, made at the first need and
      never renewed. */
  predicate ReturnsPending(s: State, env: Env)
    requires Bounded(s.text)
  {
    !s.cancelled && Backlog(s.text) > 0 && Finish(s, env).wait.open
  }

  function Cancel(s: State): State {
    if s.cancelled then s
    else
      s.(cancelled := true, framePending := false,
         wait := if s.wait.open then s.wait.(open := false, resolutions := s.wait.resolutions + 1) else s.wait)
  }

  // ----- what every event keeps -----

  ghost predicate Growing(renders: seq<string>) {
    forall i, j :: 0 <= i < j < |renders| ==> renders[i] < renders[j]
  }

  /** Rendered is exactly what is shown, and each rendered text properly extends the one before. */
  ghost predicate TextInv(t: Text, text: string) {
    && Bounded(t)
    && Flatten(t.received) == text
    && Growing(t.renders)
    && if t.renders == [] then t.rendered == None && t.revealed == 0
       else t.rendered == Some(t.renders[|t.renders|-1]) && t.rendered == Some(Shown(t))
  }

  ghost predicate PaceInv(p: Pace) { p.rate > 0.0 && 0.0 <= p.credit <= 1.0 }

  /** A promise is open only while text is hidden, and promises are resolved once. */
  ghost predicate WaitInv(w: Wait, hidden: bool, cancelled: bool) {
    && (w.open ==> w.finishing && w.promised && !cancelled && hidden)
    && w.resolutions + (if w.open then 1 else 0) == if w.promised then 1 else 0
  }

  /** No wakeup is lost: while text is hidden and the reveal is not cancelled, a frame is pending. */
  ghost predicate Inv(s: State, text: string) {
    && TextInv(s.text, text)
    && PaceInv(s.pace)
    && WaitInv(s.wait, Backlog(s.text) > 0, s.cancelled)
    && (!s.cancelled && Backlog(s.text) > 0 ==> s.framePending)
  }

  /** The same before a scheduling decision: the wakeup may be missing and a promise may be due. */
  ghost predicate Unscheduled(s: State, text: string) {
    && TextInv(s.text, text)
    && PaceInv(s.pace)
    && WaitInv(s.wait, true, s.cancelled)
  }

  lemma InitialInv()
    ensures Inv(INITIAL, "")
  {
  }

  lemma ShownPrefix(units: seq<string>, a: nat, b: nat)
    requires a <= b <= |units|
    ensures Flatten(units[..a]) <= Flatten(units[..b])
  {
    FlattenPrefix(units[..b], a);
    assert units[..b][..a] == units[..a];
  }

  lemma GrowingSnoc(renders: seq<string>, content: string)
    requires Growing(renders) && (renders != [] ==> renders[|renders|-1] < content)
    ensures Growing(renders + [content])
  {
  }

  lemma ProperPrefix(a: string, b: string)
    requires a <= b && a != b
    ensures a < b
  {
  }

  /** Showing more units renders a longer text, or nothing new. */
  lemma RenderKeeps(t: Text, revealed: nat, text: string)
    requires TextInv(t, text) && t.revealed <= revealed <= |t.received|
    ensures TextInv(Render(t.(revealed := revealed)), text)
    ensures t.renders <= Render(t.(revealed := revealed)).renders
  {
    ShownPrefix(t.received, t.revealed, revealed);
    var r := t.(revealed := revealed);
    if t.rendered != Some(Shown(r)) {
      if t.renders != [] {
        ProperPrefix(t.renders[|t.renders|-1], Shown(r));
      }
      GrowingSnoc(t.renders, Shown(r));
    }
  }

  lemma ShowKeeps(t: Text, n: int, text: string)
    requires TextInv(t, text)
    ensures TextInv(Show(t, n), text) && t.renders <= Show(t, n).renders
    ensures TextInv(ShowAll(t), text) && t.renders <= ShowAll(t).renders
  {
    RenderKeeps(t, |t.received|, text);
    if n > 0 {
      RenderKeeps(t, t.revealed + MinInt(Backlog(t), n), text);
    }
  }

  lemma ScheduleKeeps(s: State, env: Env, text: string)
    requires Unscheduled(s, text)
    ensures Inv(Schedule(s, env), text) && s.text.renders <= Schedule(s, env).text.renders
    ensures Inv(Flush(s), text) && s.text.renders <= Flush(s).text.renders
    ensures Backlog(s.text) <= 0 ==> Inv(Settle(s), text)
  {
    ShowKeeps(s.text, 0, text);
  }

  lemma ArriveKeeps(p: Pace, nothingShown: bool, n: nat, at: Option<real>)
    requires PaceInv(p) && n > 0
    ensures PaceInv(Arrive(p, nothingShown, n, at))
  {
    if at.Some? && p.lastArrival.Some? {
      var elapsed := MaxReal(1.0, at.value - p.lastArrival.value);
      assert n as real / elapsed > 0.0;
    }
  }

  /** An arrival moves the rate 35 per cent of the way to the rate just observed, counting at least one
      millisecond between arrivals; the first arrival starts from the default rate. */
  lemma ArriveMoves(p: Pace, nothingShown: bool, n: nat, at: real)
    requires n > 0
    ensures var q := Arrive(p, nothingShown, n, Some(at));
            && q.lastArrival == Some(at) && q.lastFrame == p.lastFrame
            && (p.lastArrival.None? ==>
                  && q.rate == 1.0 / 18.0
                  && q.credit == if nothingShown && p.credit < 1.0 then 1.0 else p.credit)
            && (p.lastArrival.Some? ==>
                  var ms := if at - p.lastArrival.value >= 1.0 then at - p.lastArrival.value else 1.0;
                  q.rate - p.rate == 0.35 * (n as real / ms - p.rate) && q.credit == p.credit)
    ensures Arrive(p, nothingShown, n, None) == p
  {
  }

  /** A longer backlog is never revealed more slowly. */
  lemma PressureHelps(p: Pace, b1: int, b2: int, time: real)
    requires p.rate > 0.0 && b1 <= b2
    ensures Added(p, b1, time) <= Added(p, b2, time)
  {
    var q := p.rate * Elapsed(p, time);
    AddedAtLeast(p, 0, time);
    assert q * (Pressure(b2) - Pressure(b1)) >= 0.0;
    assert q * Pressure(b2) == q * Pressure(b1) + q * (Pressure(b2) - Pressure(b1));
  }

  lemma ReceiveKeeps(s: State, units: seq<string>, at: Option<real>, text: string)
    requires Inv(s, text) && units != []
    ensures Unscheduled(Receive(s, units, at), text + Flatten(units))
  {
    var t := Receive(s, units, at);
    ArriveKeeps(s.pace, s.text.revealed == 0, |units|, at);
    FlattenAppend(s.text.received, units);
    assert t.text.received[..t.text.revealed] == s.text.received[..s.text.revealed];
  }

  lemma ProductAtLeast(r: real, e: real, p: real)
    requires r > 0.0 && e >= 8.0 && p >= 1.0
    ensures r * e * p >= 8.0 * r
  {
    assert r * (e - 8.0) >= 0.0;
    var q := r * e;
    assert q >= 8.0 * r;
    assert q * (p - 1.0) >= 0.0;
    assert q * p == q * (p - 1.0) + q;
  }

  lemma AddedAtLeast(p: Pace, backlog: int, time: real)
    requires p.rate > 0.0
    ensures Added(p, backlog, time) >= 8.0 * p.rate > 0.0
  {
    var e, q := Elapsed(p, time), Pressure(backlog);
    assert FRAME_MS >= 8.0;
    assert e >= 8.0 && q >= 1.0;
    ProductAtLeast(p.rate, e, q);
  }

  lemma FloorSplit(c: real)
    requires c >= 0.0
    ensures c.Floor >= 0 && 0.0 <= c - c.Floor as real < 1.0
  {
  }

  /** Credit is conserved by every pacing frame, and is a proper fraction afterwards. */
  lemma SpendConserves(p: Pace, backlog: int, time: real)
    requires PaceInv(p)
    ensures p.credit + Added(p, backlog, time) == Spend(p, backlog, time).credit + Granted(p, backlog, time) as real
    ensures 0.0 <= Spend(p, backlog, time).credit < 1.0
    ensures Granted(p, backlog, time) >= 0
  {
    AddedAtLeast(p, backlog, time);
    var credit := p.credit + Added(p, backlog, time);
    FloorSplit(credit);
    assert Granted(p, backlog, time) == credit.Floor;
  }

  lemma FrameKeeps(s: State, time: real, env: Env, text: string)
    requires Inv(s, text)
    ensures Inv(Frame(s, time, env), text) && s.text.renders <= Frame(s, time, env).text.renders
  {
    if !s.cancelled && Backlog(s.text) > 0 {
      SpendConserves(s.pace, Backlog(s.text), time);
      ShowKeeps(s.text, Budget(s, time), text);
      ScheduleKeeps(Reveal1(s, time), env, text);
    }
  }

  // ----- safety of every run -----

  datatype Event =
    | Pushed(delta: string, at: Option<real>, env: Env)
    | Framed(time: real, env: Env)
    | Finished(env: Env)
    | Cancelled

  type Segmenter = string -> seq<string>

  /** The only assumption about segmentation: the units of a delta concatenate to the delta. */
  ghost predicate Faithful(segment: Segmenter) {
    forall d :: Flatten(segment(d)) == d
  }

  function Next(segment: Segmenter, s: State, e: Event): (r: State)
    requires Bounded(s.text)
    ensures Bounded(r.text)
  {
    match e
    case Pushed(delta, at, env) => Push(s, segment(delta), at, env)
    case Framed(time, env) => Frame(s, time, env)
    case Finished(env) => Finish(s, env)
    case Cancelled => Cancel(s)
  }

  /** The text pushed so far, as long as the reveal is not cancelled. */
  function Accepted(s: State, text: string, e: Event): string {
    if e.Pushed? && !s.cancelled then text + e.delta else text
  }

  /** Every event keeps the invariant, and rendered text is only ever extended. */
  lemma NextKeeps(segment: Segmenter, s: State, e: Event, text: string)
    requires Faithful(segment) && Inv(s, text)
    ensures Inv(Next(segment, s, e), Accepted(s, text, e))
    ensures s.text.renders <= Next(segment, s, e).text.renders
  {
    match e
    case Pushed(delta, at, env) =>
      var units := segment(delta);
      assert Flatten(units) == delta;
      if units == [] {
        assert text + delta == text;
      } else if !s.cancelled {
        ReceiveKeeps(s, units, at, text);
        ScheduleKeeps(Receive(s, units, at), env, text + delta);
      }
    case Framed(time, env) => FrameKeeps(s, time, env, text);
    case Finished(env) =>
      if !s.cancelled && Backlog(s.text) > 0 {
        ScheduleKeeps(s.(wait := AskFinish(s.wait)), env, text);
      }
    case Cancelled =>
  }

  /** The step that resolves a promise is one after which all text is shown or the reveal is cancelled. What a
      later finish returns is another matter; see ReturnedPromiseExactly. */
  lemma ResolvedWhy(segment: Segmenter, s: State, e: Event, text: string)
    requires Faithful(segment) && Inv(s, text)
    requires Next(segment, s, e).wait.resolutions > s.wait.resolutions
    ensures Next(segment, s, e).cancelled || Backlog(Next(segment, s, e).text) == 0
  {
    NextKeeps(segment, s, e, text);
  }

  /** The state after more events, and the text pushed before any cancel. */
  function Run(segment: Segmenter, s: State, text: string, events: seq<Event>): (r: (State, string))
    requires Bounded(s.text)
    ensures Bounded(r.0.text)
    decreases |events|
  {
    if events == [] then (s, text)
    else Run(segment, Next(segment, s, events[0]), Accepted(s, text, events[0]), events[1..])
  }

  /** Every run keeps the invariant, and along a run nothing rendered is ever taken back. */
  lemma {:induction false} RunKeeps(segment: Segmenter, s: State, text: string, events: seq<Event>)
    requires Faithful(segment) && Inv(s, text)
    ensures var r := Run(segment, s, text, events);
            Inv(r.0, r.1) && s.text.renders <= r.0.text.renders && text <= r.1
    decreases |events|
  {
    if events != [] {
      NextKeeps(segment, s, events[0], text);
      RunKeeps(segment, Next(segment, s, events[0]), Accepted(s, text, events[0]), events[1..]);
    }
  }

  lemma TextSafe(t: Text, text: string)
    requires TextInv(t, text)
    ensures Shown(t) <= text
    ensures Backlog(t) == 0 ==> Shown(t) == text
    ensures forall i :: 0 <= i < |t.renders| ==> t.renders[i] <= Shown(t)
  {
    assert t.received[..|t.received|] == t.received;
    ShownPrefix(t.received, t.revealed, |t.received|);
    forall i | 0 <= i < |t.renders| ensures t.renders[i] <= Shown(t) {
      assert t.rendered == Some(t.renders[|t.renders|-1]);
    }
  }

  /** Reveal safety over every run: what is shown is a prefix of the concatenated deltas, everything ever
      rendered is a prefix of it, no wakeup is lost, and at most one promise is resolved. */
  lemma RunSafe(segment: Segmenter, events: seq<Event>)
    requires Faithful(segment)
    ensures var r := Run(segment, INITIAL, "", events);
            var s, text := r.0, r.1;
            && 0 <= s.text.revealed <= |s.text.received|
            && Shown(s.text) <= text
            && (forall i :: 0 <= i < |s.text.renders| ==> s.text.renders[i] <= Shown(s.text))
            && (!s.cancelled && Shown(s.text) != text ==> s.framePending)
            && (s.wait.open ==> s.framePending)
            && s.wait.resolutions <= 1
  {
    InitialInv();
    RunKeeps(segment, INITIAL, "", events);
    var r := Run(segment, INITIAL, "", events);
    TextSafe(r.0.text, r.1);
  }

  /** After a cancel nothing is ever shown again, no frame is due and no promise is open. */
  lemma {:induction false} CancelledQuiet(segment: Segmenter, s: State, text: string, events: seq<Event>)
    requires Bounded(s.text) && s.cancelled && !s.framePending && !s.wait.open
    ensures var r := Run(segment, s, text, events);
            && r.0.text == s.text && r.0.pace == s.pace && r.1 == text
            && r.0.cancelled && !r.0.framePending && !r.0.wait.open && r.0.wait.resolutions == s.wait.resolutions
    decreases |events|
  {
    if events != [] {
      CancelledQuiet(segment, Next(segment, s, events[0]), text, events[1..]);
    }
  }

  /** A cancel takes the pending frame away and resolves the promise that is open; whatever happens after it, what
      is shown stays as it is. */
  lemma CancelStops(segment: Segmenter, s: State, text: string, events: seq<Event>)
    requires Bounded(s.text) && !s.cancelled
    ensures var r := Run(segment, Next(segment, s, Cancelled), text, events).0;
            && r.text == s.text && r.cancelled && !r.framePending && !r.wait.open
            && r.wait.resolutions == s.wait.resolutions + (if s.wait.open then 1 else 0)
  {
    CancelledQuiet(segment, Next(segment, s, Cancelled), text, events);
  }

  /** What the page answers at an event other than a cancel. */
  function EnvOf(e: Event): Env
    requires !e.Cancelled?
  {
    match e
    case Pushed(_, _, env) => env
    case Framed(_, env) => env
    case Finished(env) => env
  }

  /** Where text is to be shown at once, or no frames can be had, every push, frame and finish shows all the text
      there is. */
  lemma ShownAtOnce(segment: Segmenter, s: State, e: Event, text: string)
    requires Faithful(segment) && Inv(s, text) && !s.cancelled && !e.Cancelled?
    requires EnvOf(e).immediate || !EnvOf(e).frames
    requires e.Pushed? ==> e.delta != ""
    requires Backlog(s.text) > 0 || e.Pushed?
    ensures var t := Next(segment, s, e);
            && t.text.rendered == Some(Accepted(s, text, e)) && Backlog(t.text) == 0
            && t.framePending == (e.Pushed? && e.env.immediate && s.framePending)
  {
    NextKeeps(segment, s, e, text);
    var t := Next(segment, s, e);
    if e.Pushed? {
      assert Flatten(segment(e.delta)) == e.delta;
    }
    TextSafe(t.text, Accepted(s, text, e));
    AllRendered(t.text, Accepted(s, text, e));
  }

  lemma AllRendered(t: Text, text: string)
    requires TextInv(t, text) && Backlog(t) == 0 && t.received != []
    ensures t.rendered == Some(text)
  {
    assert t.received[..|t.received|] == t.received;
  }

  /** On a visible page a push and a finish show nothing by themselves; what is hidden waits for the frame. */
  lemma ShownLater(segment: Segmenter, s: State, e: Event, text: string)
    requires Faithful(segment) && Inv(s, text) && !s.cancelled
    requires (e.Pushed? && e.delta != "") || (e.Finished? && Backlog(s.text) > 0)
    requires e.env == VISIBLE
    ensures var t := Next(segment, s, e);
            && t.text.revealed == s.text.revealed && t.text.renders == s.text.renders && t.framePending
            && t.text.received == s.text.received + if e.Pushed? then segment(e.delta) else []
  {
    if e.Pushed? {
      assert Flatten(segment(e.delta)) == e.delta;
      assert s.text.received + segment(e.delta) != [];
    } else {
      assert s.text.received + [] == s.text.received;
    }
  }

  /** What a push does to pace and text, whatever the page answers: the first arrival grants one credit while nothing
      is shown, later ones move the rate. */
  lemma PushInNumbers(s: State, units: seq<string>, at: Option<real>, env: Env)
    requires Bounded(s.text) && !s.cancelled && units != []
    ensures var t, p := Push(s, units, at, env), s.pace;
            && t.text.received == s.text.received + units
            && t.pace.lastFrame == p.lastFrame
            && (at.None? ==> t.pace == p)
            && (at.Some? && p.lastArrival.None? ==>
                  && t.pace.rate == 1.0 / 18.0 && t.pace.lastArrival == at
                  && t.pace.credit == if s.text.revealed == 0 && p.credit < 1.0 then 1.0 else p.credit)
            && (at.Some? && p.lastArrival.Some? ==>
                  var ms := if at.value - p.lastArrival.value >= 1.0 then at.value - p.lastArrival.value else 1.0;
                  && t.pace.rate - p.rate == 0.35 * (|units| as real / ms - p.rate)
                  && t.pace.lastArrival == at && t.pace.credit == p.credit)
  {
    if at.Some? {
      ArriveMoves(s.pace, s.text.revealed == 0, |units|, at.value);
    }
  }

  /** A finish with nothing to wait for only notes that it was asked for. */
  lemma FinishIdle(s: State, env: Env)
    requires Bounded(s.text) && (s.cancelled || Backlog(s.text) == 0)
    ensures Finish(s, env) == s.(wait := s.wait.(finishing := true)) && !ReturnsPending(s, env)
  {
  }

  // ----- pacing over runs of frames -----

  const VISIBLE := Env(false, true)

  /** The state after a run of frames on a visible page, with the credit added and granted on the way. */
  datatype Ledger = Ledger(state: State, added: real, granted: int)

  function Enter(l: Ledger, time: real): (r: Ledger)
    requires Bounded(l.state.text)
    ensures Bounded(r.state.text)
  {
    var s, t := l.state, Frame(l.state, time, VISIBLE);
    if s.cancelled || Backlog(s.text) <= 0 then l.(state := t)
    else Ledger(t, l.added + Added(s.pace, Backlog(s.text), time), l.granted + Budget(s, time))
  }

  function Frames(s: State, times: seq<real>): (r: Ledger)
    requires Bounded(s.text)
    ensures Bounded(r.state.text)
  {
    if times == [] then Ledger(s, 0.0, 0) else Enter(Frames(s, times[..|times|-1]), times[|times|-1])
  }

  ghost predicate Pacing(s: State, text: string) { Inv(s, text) && !s.wait.finishing && !s.cancelled }

  /** One pacing frame, in terms of its accounting. */
  lemma FramePaces(s: State, time: real, text: string)
    requires Pacing(s, text) && Backlog(s.text) > 0
    ensures var t, b := Frame(s, time, VISIBLE), Backlog(s.text);
            && Pacing(t, text)
            && t.pace == Spend(s.pace, b, time)
            && Budget(s, time) == Granted(s.pace, b, time) >= 0
            && Backlog(t.text) == b - MinInt(b, Budget(s, time))
  {
    FrameKeeps(s, time, VISIBLE, text);
    SpendConserves(s.pace, Backlog(s.text), time);
  }

  /** The time a frame counts for: that since the last frame, between 8 and 50 milliseconds, or one sixtieth of a
      second for the first. */
  ghost predicate Counted(ms: real, p: Pace, time: real) {
    if p.lastFrame.None? then ms == 1000.0 / 60.0
    else
      var since := time - p.lastFrame.value;
      && (since < 8.0 ==> ms == 8.0) && (since > 50.0 ==> ms == 50.0) && (8.0 <= since <= 50.0 ==> ms == since)
  }

  /** How much faster a backlog is shown. */
  ghost predicate Faster(times: real, b: int) {
    times == if b < 6 then 1.0 else if b < 12 then 1.15 else if b < 24 then 1.4 else if b < 48 then 2.0 else 3.0
  }

  lemma AddedInNumbers(p: Pace, b: int, time: real, ms: real, times: real)
    requires Counted(ms, p, time) && Faster(times, b)
    ensures Added(p, b, time) == p.rate * ms * times
  {
    assert Elapsed(p, time) == ms;
    assert Pressure(b) == times;
  }

  /** One pacing frame in numbers: the credit grows by rate, time and backlog; whole units are shown as far as there
      are hidden ones, and the fraction is kept. */
  lemma FrameInNumbers(s: State, time: real, text: string, ms: real, times: real)
    requires Pacing(s, text) && Backlog(s.text) > 0
    requires Counted(ms, s.pace, time) && Faster(times, |s.text.received| - s.text.revealed)
    ensures var t, credit := Frame(s, time, VISIBLE), s.pace.credit + s.pace.rate * ms * times;
            && t.text.received == s.text.received
            && t.text.revealed == s.text.revealed + MinInt(credit.Floor, |s.text.received| - s.text.revealed)
            && t.pace == Pace(s.pace.rate, s.pace.lastArrival, Some(time), credit - credit.Floor as real)
  {
    var b := Backlog(s.text);
    var credit := s.pace.credit + s.pace.rate * ms * times;
    AddedInNumbers(s.pace, b, time, ms, times);
    FramePaces(s, time, text);
    FrameReveals(s, time);
    SpendIs(s.pace, b, time, credit);
  }

  /** A frame that may show no unit renders nothing; otherwise what is shown is rendered. The next frame is asked for
      exactly while text is hidden. */
  lemma FrameRenders(s: State, time: real, text: string)
    requires Inv(s, text) && !s.cancelled && Backlog(s.text) > 0
    ensures var t := Frame(s, time, VISIBLE);
            && (t.text.revealed == s.text.revealed ==> t.text == s.text)
            && (t.text.revealed > s.text.revealed ==> t.text.rendered == Some(Shown(t.text)))
            && (t.framePending <==> Backlog(t.text) > 0)
  {
    FrameReveals(s, time);
  }

  lemma SpendIs(p: Pace, b: int, time: real, credit: real)
    requires PaceInv(p) && credit == p.credit + Added(p, b, time)
    ensures Granted(p, b, time) == credit.Floor
    ensures Spend(p, b, time) == Pace(p.rate, p.lastArrival, Some(time), credit - credit.Floor as real)
  {
    SpendConserves(p, b, time);
  }

  lemma FrameReveals(s: State, time: real)
    requires Bounded(s.text) && !s.cancelled && Backlog(s.text) > 0
    ensures var t := Frame(s, time, VISIBLE); t.text == Show(s.text, Budget(s, time))
  {
  }

  lemma FrameIdle(s: State, time: real, text: string)
    requires Pacing(s, text) && Backlog(s.text) == 0
    ensures Frame(s, time, VISIBLE) == s.(framePending := false)
    ensures Pacing(Frame(s, time, VISIBLE), text)
  {
  }

  lemma EnterPaces(l: Ledger, time: real, text: string)
    requires Pacing(l.state, text)
    ensures var m, b := Enter(l, time), Backlog(l.state.text);
            && Pacing(m.state, text) && m.state.pace.rate == l.state.pace.rate
            && l.state.pace.credit + m.added - l.added == m.state.pace.credit + (m.granted - l.granted) as real
            && m.granted >= l.granted
            && Backlog(m.state.text) == b - MinInt(b, m.granted - l.granted)
            && (b > 0 ==> m.state.pace.credit < 1.0 && m.added >= l.added + 8.0 * l.state.pace.rate)
            && (b == 0 ==> m.state.pace.credit == l.state.pace.credit)
  {
    if Backlog(l.state.text) > 0 {
      FramePaces(l.state, time, text);
      SpendConserves(l.state.pace, Backlog(l.state.text), time);
      AddedAtLeast(l.state.pace, Backlog(l.state.text), time);
    } else {
      FrameIdle(l.state, time, text);
    }
  }

  /** The conservation law of pacing: over any run of non-finishing frames, the credit before plus all
      that the frames added equals the credit after plus all that they granted, the credit after a
      frame is a proper fraction, and the units shown are the granted ones, as far as there was text. */
  lemma {:induction false} PacingConserves(s: State, times: seq<real>, text: string)
    requires Pacing(s, text)
    ensures var l := Frames(s, times);
            && Pacing(l.state, text)
            && l.state.pace.rate == s.pace.rate
            && s.pace.credit + l.added == l.state.pace.credit + l.granted as real
            && (times != [] && Backlog(s.text) > 0 ==> l.state.pace.credit < 1.0)
            && l.granted >= 0
            && Backlog(l.state.text) == Backlog(s.text) - MinInt(Backlog(s.text), l.granted)
  {
    if times != [] {
      var init, time := times[..|times|-1], times[|times|-1];
      PacingConserves(s, init, text);
      EnterPaces(Frames(s, init), time, text);
    }
  }

  /** Eight times the rate for each of `n` frames. */
  function Quota(rate: real, n: nat): real { if n == 0 then 0.0 else Quota(rate, n - 1) + 8.0 * rate }

  lemma {:induction false} QuotaIs(rate: real, n: nat)
    ensures Quota(rate, n) == 8.0 * rate * n as real
  {
    if n > 0 {
      QuotaIs(rate, n - 1);
      var r := 8.0 * rate;
      assert n as real == (n - 1) as real + 1.0;
      assert r * ((n - 1) as real + 1.0) == r * (n - 1) as real + r;
    }
  }

  /** While text is hidden, every frame has added at least eight times the rate. */
  lemma {:induction false} AddsEnough(s: State, times: seq<real>, text: string)
    requires Pacing(s, text)
    ensures Backlog(Frames(s, times).state.text) > 0 ==> Quota(s.pace.rate, |times|) <= Frames(s, times).added
  {
    if times != [] {
      var init, time := times[..|times|-1], times[|times|-1];
      AddsEnough(s, init, text);
      PacingConserves(s, init, text);
      EnterPaces(Frames(s, init), time, text);
    }
  }

  /** With no more pushes the backlog drains in a bounded number of frames: `n` frames are enough as soon
      as Quota(rate, n), which is 8 * rate * n, reaches the backlog less the credit at hand. */
  lemma Drains(s: State, times: seq<real>, text: string)
    requires Pacing(s, text) && times != []
    requires Quota(s.pace.rate, |times|) >= Backlog(s.text) as real - s.pace.credit
    ensures Backlog(Frames(s, times).state.text) == 0
    ensures Shown(Frames(s, times).state.text) == text
  {
    PacingConserves(s, times, text);
    AddsEnough(s, times, text);
    TextSafe(Frames(s, times).state.text, text);
  }

  /** The promise of this reveal was handed out and resolved before. */
  predicate Spent(w: Wait) { w.promised && !w.open }

  /** Whether the promise a finish returns is true to the text, exactly: while text stays hidden it is pending if
      and only if the promise of this reveal was not resolved by an earlier finish. */
  lemma ReturnedPromiseExactly(s: State, env: Env, text: string)
    requires Inv(s, text) && !s.cancelled
    ensures Backlog(Finish(s, env).text) > 0 ==> (ReturnsPending(s, env) <==> !Spent(s.wait))
    ensures Backlog(Finish(s, env).text) == 0 ==> !ReturnsPending(s, env)
  {
    if Backlog(s.text) > 0 {
      ScheduleKeeps(s.(wait := AskFinish(s.wait)), env, text);
    }
  }

  lemma RunSnoc(segment: Segmenter, s: State, text: string, events: seq<Event>, e: Event)
    requires Bounded(s.text)
    ensures var r := Run(segment, s, text, events);
            Run(segment, s, text, events + [e]) == (Next(segment, r.0, e), Accepted(r.0, r.1, e))
    decreases |events|
  {
    if events == [] {
      assert [] + [e] == [e] && [e][1..] == [];
    } else {
      assert (events + [e])[1..] == events[1..] + [e];
      RunSnoc(segment, Next(segment, s, events[0]), Accepted(s, text, events[0]), events[1..], e);
    }
  }

  function FinishedOnce(a: string, t1: real, t2: real): seq<Event> {
    [Pushed(a, None, VISIBLE), Finished(VISIBLE), Framed(t1, VISIBLE), Framed(t2, VISIBLE)]
  }

  /** It can be untrue: whatever is pushed, finished and shown, and whatever is pushed after that, the next finish
      returns a resolved promise while that text is still hidden. */
  lemma SecondFinishUntrue(segment: Segmenter, a: string, b: string, t1: real, t2: real)
    requires Faithful(segment) && a != "" && b != ""
    ensures var s := Run(segment, INITIAL, "", FinishedOnce(a, t1, t2) + [Pushed(b, None, VISIBLE)]).0;
            && !s.cancelled && Backlog(s.text) > 0 && Spent(s.wait)
            && Backlog(Finish(s, VISIBLE).text) == Backlog(s.text) && !ReturnsPending(s, VISIBLE)
  {
    var es := FinishedOnce(a, t1, t2);
    AllShownOnce(segment, a, t1, t2);
    RunSnoc(segment, INITIAL, "", es, Pushed(b, None, VISIBLE));
    PushAfterSpent(segment, Run(segment, INITIAL, "", es).0, a, b);
  }

  lemma AllShownOnce(segment: Segmenter, a: string, t1: real, t2: real)
    requires Faithful(segment) && a != ""
    ensures var s := Run(segment, INITIAL, "", FinishedOnce(a, t1, t2)).0;
            Inv(s, a) && !s.cancelled && Spent(s.wait)
  {
    var es := FinishedOnce(a, t1, t2);
    assert Flatten(segment(a)) == a && "" + a == a;
    InitialInv();
    NextKeeps(segment, INITIAL, es[0], "");
    var p := Push(INITIAL, segment(a), None, VISIBLE);
    FinishBound(p, VISIBLE, VISIBLE, VISIBLE, t1, t2, a);
    RunFour(segment, INITIAL, "", es[0], es[1], es[2], es[3]);
    NextKeeps(segment, p, es[1], a);
    NextKeeps(segment, Finish(p, VISIBLE), es[2], a);
    NextKeeps(segment, Frame(Finish(p, VISIBLE), t1, VISIBLE), es[3], a);
  }

  lemma PushAfterSpent(segment: Segmenter, s: State, a: string, b: string)
    requires Faithful(segment) && b != "" && Inv(s, a) && !s.cancelled && Spent(s.wait)
    ensures var t := Push(s, segment(b), None, VISIBLE);
            && !t.cancelled && Backlog(t.text) > 0 && Spent(t.wait)
            && Backlog(Finish(t, VISIBLE).text) == Backlog(t.text) && !ReturnsPending(t, VISIBLE)
  {
    assert Flatten(segment(b)) == b;
    NextKeeps(segment, s, Pushed(b, None, VISIBLE), a);
    var t := Push(s, segment(b), None, VISIBLE);
    FinishShowsNothing(t);
    ReturnedPromiseExactly(t, VISIBLE, a + b);
  }

  lemma RunFour(segment: Segmenter, s: State, text: string, e0: Event, e1: Event, e2: Event, e3: Event)
    requires Bounded(s.text)
    ensures Run(segment, s, text, [e0, e1, e2, e3]).0 ==
              Next(segment, Next(segment, Next(segment, Next(segment, s, e0), e1), e2), e3)
  {
    RunSnoc(segment, s, text, [], e0);
    RunSnoc(segment, s, text, [e0], e1);
    RunSnoc(segment, s, text, [e0, e1], e2);
    RunSnoc(segment, s, text, [e0, e1, e2], e3);
    assert [] + [e0] == [e0] && [e0] + [e1] == [e0, e1] && [e0, e1] + [e2] == [e0, e1, e2];
    assert [e0, e1, e2] + [e3] == [e0, e1, e2, e3];
  }

  lemma FinishShowsNothing(s: State)
    requires Bounded(s.text)
    ensures Backlog(Finish(s, VISIBLE).text) == Backlog(s.text)
  {
  }

  /** The finish bound, whatever the page answers: two frames after a finish with nothing pushed in between, everything
      is shown and no promise is open; the one promise of the reveal, unless it had been resolved before, has been
      resolved once. While the page stays visible, the first frame shows at least half, and the promise returned is
      pending exactly until everything is shown. */
  lemma FinishBound(s: State, e0: Env, e1: Env, e2: Env, t1: real, t2: real, text: string)
    requires Inv(s, text) && !s.cancelled && Backlog(s.text) > 0
    ensures var f := Finish(s, e0);
            var a := Frame(f, t1, e1);
            var b := Frame(a, t2, e2);
            && Backlog(b.text) == 0 && Shown(b.text) == text
            && !b.wait.open && b.wait.promised && !b.cancelled
            && b.wait.resolutions == s.wait.resolutions + (if Spent(s.wait) then 0 else 1)
            && (e0 == e1 == VISIBLE ==>
                  && f.framePending && Backlog(f.text) == Backlog(s.text)
                  && Backlog(a.text) == Backlog(s.text) / 2
                  && (ReturnsPending(s, e0) <==> !Spent(s.wait))
                  && f.wait.open == ReturnsPending(s, e0)
                  && a.wait.open == (ReturnsPending(s, e0) && Backlog(a.text) > 0))
  {
    var f := Finish(s, e0);
    ScheduleKeeps(s.(wait := AskFinish(s.wait)), e0, text);
    FinishAny(f, t1, e1, text);
    var a := Frame(f, t1, e1);
    FinishAny(a, t2, e2, text);
    if e0 == e1 == VISIBLE {
      FinishFrame(f, t1, text);
    }
    TextSafe(Frame(a, t2, e2).text, text);
  }

  /** A frame while finishing, whatever the page answers. */
  lemma FinishAny(s: State, time: real, env: Env, text: string)
    requires Inv(s, text) && !s.cancelled && s.wait.finishing && s.wait.promised
    ensures var t, n := Frame(s, time, env), if s.wait.finishFrames >= 1 then s.wait.finishFrames else 1;
            && Inv(t, text) && !t.cancelled && t.wait.finishing && t.wait.promised
            && (Backlog(s.text) > 0 ==> t.wait.finishFrames == s.wait.finishFrames - 1)
            && Backlog(t.text) <= Backlog(s.text) - MinInt(Backlog(s.text), CeilDiv(Backlog(s.text), n))
  {
    FrameKeeps(s, time, env, text);
  }

  lemma FinishFrame(s: State, time: real, text: string)
    requires Inv(s, text) && !s.cancelled && s.wait.finishing && Backlog(s.text) > 0
    ensures var t, n := Frame(s, time, VISIBLE), if s.wait.finishFrames >= 1 then s.wait.finishFrames else 1;
            && Inv(t, text) && !t.cancelled && t.wait.finishing
            && t.wait.finishFrames == s.wait.finishFrames - 1 && t.wait.promised == s.wait.promised
            && t.wait.open == (s.wait.open && Backlog(t.text) > 0)
            && Backlog(t.text) == Backlog(s.text) - MinInt(Backlog(s.text), CeilDiv(Backlog(s.text), n))
  {
    FrameKeeps(s, time, VISIBLE, text);
  }

  // ----- the controller -----

  class Reveal {
    const segment: Segmenter
    var received: seq<string>
    var revealedUnits: nat
    var lastRendered: Option<string>
    var arrivalUnitsPerMs: real
    var lastArrivalAt: Option<real>
    var lastFrameAt: Option<real>
    var frameHandle: bool
    var finishing: bool
    var finishFramesRemaining: int
    var finishPromise: bool
    var resolveFinish: bool
    var revealCredit: real
    var cancelled: bool
    ghost var renders: seq<string>
    ghost var resolutions: nat

    ghost function View(): State
      reads this
    {
      State(Text(received, revealedUnits, lastRendered, renders),
            Pace(arrivalUnitsPerMs, lastArrivalAt, lastFrameAt, revealCredit),
            Wait(finishing, finishFramesRemaining, finishPromise, resolveFinish, resolutions),
            frameHandle, cancelled)
    }

    constructor (segment: Segmenter)
      ensures View() == INITIAL && this.segment == segment
    {
      this.segment := segment;
      received, revealedUnits, lastRendered := [], 0, None;
      arrivalUnitsPerMs, lastArrivalAt, lastFrameAt := DEFAULT_RATE, None, None;
      frameHandle, finishing, finishFramesRemaining := false, false, FINISH_FRAMES;
      finishPromise, resolveFinish, revealCredit, cancelled := false, false, 0.0, false;
      renders, resolutions := [], 0;
    }

    method SettleFinish()
      modifies this
      ensures View() == Settle(old(View()))
    {
      if !finishing || revealedUnits < |received| || !resolveFinish {
        return;
      }
      resolveFinish := false;
      resolutions := resolutions + 1;
    }

    method RenderCurrent()
      requires revealedUnits <= |received|
      modifies this
      ensures View() == old(View()).(text := Render(old(View()).text))
    {
      var content := Flatten(received[..revealedUnits]);
      if lastRendered == Some(content) {
        return;
      }
      lastRendered := Some(content);
      renders := renders + [content];
    }

    method FlushAll()
      modifies this
      ensures View() == Flush(old(View()))
    {
      revealedUnits := |received|;
      RenderCurrent();
      SettleFinish();
    }

    method ScheduleFrame(env: Env)
      requires revealedUnits <= |received|
      modifies this
      ensures View() == Schedule(old(View()), env)
    {
      if cancelled {
        return;
      }
      if env.immediate || !env.frames {
        frameHandle := false;
        FlushAll();
        return;
      }
      if frameHandle || revealedUnits >= |received| {
        SettleFinish();
        return;
      }
      frameHandle := true;
    }

    method TakeBudget(time: real, backlog: int) returns (budget: int)
      requires backlog == Backlog(View().text)
      modifies this
      ensures budget == Budget(old(View()), time)
      ensures View() == old(View()).(
                pace := if finishing then old(View()).pace.(lastFrame := Some(time))
                        else Spend(old(View()).pace, backlog, time),
                wait := if finishing then old(View()).wait.(finishFrames := old(View()).wait.finishFrames - 1)
                        else old(View()).wait)
    {
      var elapsedMs := if lastFrameAt.None? then FRAME_MS else MinReal(50.0, MaxReal(8.0, time - lastFrameAt.value));
      lastFrameAt := Some(time);
      if finishing {
        var frames := if finishFramesRemaining >= 1 then finishFramesRemaining else 1;
        budget := CeilDiv(backlog, frames);
        finishFramesRemaining := finishFramesRemaining - 1;
      } else {
        var pressure := Pressure(backlog);
        revealCredit := revealCredit + arrivalUnitsPerMs * elapsedMs * pressure;
        budget := revealCredit.Floor;
        if budget > 0 {
          revealCredit := revealCredit - budget as real;
        }
      }
    }

    method OnFrame(time: real, env: Env)
      requires revealedUnits <= |received|
      modifies this
      ensures View() == Frame(old(View()), time, env)
    {
      frameHandle := false;
      if cancelled {
        return;
      }
      var backlog := |received| - revealedUnits;
      if backlog <= 0 {
        SettleFinish();
        return;
      }
      var budget := TakeBudget(time, backlog);
      if budget > 0 {
        revealedUnits := revealedUnits + MinInt(backlog, budget);
        RenderCurrent();
      }
      assert View() == Reveal1(old(View()), time);
      if revealedUnits < |received| {
        ScheduleFrame(env);
      } else {
        SettleFinish();
      }
    }

    method PushDelta(contentDelta: string, now: Option<real>, env: Env)
      requires revealedUnits <= |received|
      modifies this
      ensures View() == Push(old(View()), segment(contentDelta), now, env)
    {
      if cancelled {
        return;
      }
      var units := segment(contentDelta);
      if units == [] {
        return;
      }
      if now.Some? {
        if lastArrivalAt.None? {
          arrivalUnitsPerMs := DEFAULT_RATE;
          if revealedUnits == 0 {
            revealCredit := MaxReal(revealCredit, 1.0);
          }
        } else {
          var elapsedMs := MaxReal(1.0, now.value - lastArrivalAt.value);
          var instantaneousRate := |units| as real / elapsedMs;
          arrivalUnitsPerMs := arrivalUnitsPerMs * (1.0 - EMA_WEIGHT) + instantaneousRate * EMA_WEIGHT;
        }
        lastArrivalAt := now;
      }
      received := received + units;
      assert View() == Receive(old(View()), units, now);
      if env.immediate {
        FlushAll();
      } else {
        ScheduleFrame(env);
      }
    }

    /** Asks for the rest to be shown, and tells whether the promise returned is still pending. */
    method FinishNow(env: Env) returns (pending: bool)
      requires revealedUnits <= |received|
      modifies this
      ensures View() == Finish(old(View()), env)
      ensures pending == ReturnsPending(old(View()), env)
    {
      if cancelled || revealedUnits >= |received| {
        finishing := true;
        return false;
      }
      finishing := true;
      finishFramesRemaining := FINISH_FRAMES;
      if !finishPromise {
        finishPromise, resolveFinish := true, true;
      }
      ScheduleFrame(env);
      return resolveFinish;
    }

    method CancelAll()
      modifies this
      ensures View() == Cancel(old(View()))
    {
      if cancelled {
        return;
      }
      cancelled := true;
      frameHandle := false;
      if resolveFinish {
        resolveFinish := false;
        resolutions := resolutions + 1;
      }
    }
  }

  /** Replaying events on the controller is the run of the functions above. */
  method Replay(segment: Segmenter, events: seq<Event>) returns (r: Reveal)
    ensures fresh(r) && r.View() == Run(segment, INITIAL, "", events).0
  {
    r := new Reveal(segment);
    ghost var text := "";
    assert events[0..] == events;
    for k := 0 to |events|
      invariant r.segment == segment && fresh(r) && Bounded(r.View().text)
      invariant Run(segment, r.View(), text, events[k..]) == Run(segment, INITIAL, "", events)
    {
      assert events[k..][0] == events[k] && events[k..][1..] == events[k+1..];
      text := Accepted(r.View(), text, events[k]);
      match events[k]
      case Pushed(delta, at, env) => r.PushDelta(delta, at, env);
      case Framed(time, env) => r.OnFrame(time, env);
      case Finished(env) => var _ := r.FinishNow(env);
      case Cancelled => r.CancelAll();
    }
  }
}
