/** The interface currentness protocol: concurrent observations of the server source, the companion and
    the conversation, told apart by generation numbers, feed one derived state that opens the send gate.

    An observation runs in pieces between which anything else may happen: it starts, its three reads
    settle, it is admitted input by input, its admission callback runs, and it emits. `Step` names the
    pieces, `Next` says what each does, and the invariant `Inv` is kept by every step, so the promises
    hold in every interleaving, including the states between the four inputs of one admission. */
module InterfaceCurrentness {
  import opened Common

  // ----- scopes -----

  datatype Scope = Scope(projectRef: string, threadRef: string, channelRef: string)

  /** A scope counts only when all its parts are present. */
  function ExactScope(s: Option<Scope>): Option<Scope> {
    if s.Some? && s.value.projectRef != "" && s.value.threadRef != "" && s.value.channelRef != "" then s else None
  }

  predicate SameScope(a: Option<Scope>, b: Option<Scope>) {
    ExactScope(a).Some? && ExactScope(a) == ExactScope(b)
  }

  // ----- the derived state -----

  predicate SourceHash(h: Option<string>) {
    h.Some? && Hex64(h.value)
  }

  datatype Server = Server(current: bool, treeSha256: Option<string>)
  datatype Conversation = Conversation(scope: Option<Scope>, currentness: string)
  datatype Browser = Observing(generation: nat, scope: Scope) | Current(generation: nat, scope: Scope)

  datatype Kind = UNOBSERVED | SOURCE_MISMATCH | OBSERVING | RECOVERABLE | ACTION_REQUIRED | UNAVAILABLE | READY

  datatype Relationship = Relationship(kind: Kind, generation: nat, scope: Option<Scope>,
                                       loaded: Option<string>, server: Option<string>,
                                       companion: string, conversation: string)

  const UNOBSERVED_STATE := Relationship(UNOBSERVED, 0, None, None, None, "UNKNOWN", "UNREAD")

  predicate ConversationReady(currentness: string) { currentness in {"CURRENT", "EMPTY", "ABSENT"} }

  /** What the availability of the companion allows at most. */
  function CompanionKind(availability: string): Kind {
    if availability == "STARTING" then OBSERVING
    else if availability == "RECOVERABLE" then RECOVERABLE
    else if availability == "ACTION_REQUIRED" then ACTION_REQUIRED
    else if availability == "READY" then READY
    else UNAVAILABLE
  }

  lemma CompanionReady(availability: string)
    ensures CompanionKind(availability) == READY <==> availability == "READY"
  {
  }

  function DeriveKind(loaded: string, server: Server, companion: string, conversation: Conversation, browser: Browser)
    : Kind
  {
    if !server.current || !SourceHash(server.treeSha256) then UNAVAILABLE
    else if !SourceHash(Some(loaded)) || loaded != server.treeSha256.value then SOURCE_MISMATCH
    else if !browser.Current? || ExactScope(Some(browser.scope)).None? then OBSERVING
    else if CompanionKind(companion) != READY then CompanionKind(companion)
    else if !SameScope(conversation.scope, Some(browser.scope)) then UNAVAILABLE
    else if !ConversationReady(conversation.currentness) then UNAVAILABLE
    else READY
  }

  function Derive(loaded: string, server: Server, companion: string, conversation: Conversation, browser: Browser)
    : Relationship
  {
    Relationship(DeriveKind(loaded, server, companion, conversation, browser),
                 browser.generation, ExactScope(Some(browser.scope)),
                 Some(loaded), server.treeSha256, companion, conversation.currentness)
  }

  /** The compound keeps the latest value of each input and, once all five were observed, the state
      derived from them. */
  datatype Compound = Compound(loaded: Option<string>, server: Option<Server>, companion: Option<string>,
                               conversation: Option<Conversation>, browser: Option<Browser>,
                               output: Relationship)

  predicate Coherent(c: Compound) {
    c.loaded.Some? && c.server.Some? && c.companion.Some? && c.conversation.Some? && c.browser.Some?
  }

  function Recompute(c: Compound): Compound {
    if Coherent(c)
    then c.(output := Derive(c.loaded.value, c.server.value, c.companion.value, c.conversation.value, c.browser.value))
    else c
  }

  function AcceptServer(c: Compound, v: Server): Compound { Recompute(c.(server := Some(v))) }

  function AcceptCompanion(c: Compound, v: string): Compound { Recompute(c.(companion := Some(v))) }

  function AcceptConversation(c: Compound, v: Conversation): Compound { Recompute(c.(conversation := Some(v))) }

  function AcceptBrowser(c: Compound, v: Browser): Compound { Recompute(c.(browser := Some(v))) }

  // ----- the protocol -----

  /** The values one observation read, with its generation and scope. */
  datatype Observation = Observation(generation: nat, scope: Scope, server: Server, companion: string,
                                     conversation: Conversation)

  datatype Flight = Reading(scope: Scope) | CallingBack(observation: Observation)

  /** An admission in progress: `done` of its four inputs are accepted. */
  datatype Admission = Admission(observation: Observation, done: nat)

  datatype Emission = Emission(generation: nat, relationship: Relationship)

  datatype State = State(
    generation: nat,
    disposed: bool,
    scope: Option<Scope>,                // what currentScope() answers now
    compound: Compound,
    flights: map<nat, Flight>,           // observations that wait for their reads or their callback
    admitting: Option<Admission>,
    admitted: seq<Observation>,
    emitted: seq<Emission>)

  function Emit(s: State): State {
    s.(emitted := s.emitted + [Emission(s.generation, s.compound.output)])
  }

  function Initial(loaded: Option<string>, scope: Option<Scope>): State {
    var loadedInput := if SourceHash(loaded) then loaded else None;
    Emit(State(0, false, scope, Compound(loadedInput, None, None, None, None, UNOBSERVED_STATE), map[], None, [], []))
  }

  predicate IsCurrent(s: State, generation: nat, scope: Scope) {
    !s.disposed && generation == s.generation && SameScope(Some(scope), s.scope)
  }

  /** None stands for a read that was rejected. */
  datatype Reads = Reads(server: Option<string>, companion: Option<string>, conversation: Option<Conversation>)

  function ObservationOf(generation: nat, scope: Scope, r: Reads): Observation {
    Observation(generation, scope,
                if r.server.Some? then Server(true, r.server) else Server(false, None),
                if r.companion.Some? then r.companion.value else "UNAVAILABLE",
                if r.conversation.Some? then r.conversation.value else Conversation(Some(scope), "UNAVAILABLE"))
  }

  function Started(s: State, scope: Scope): State {
    s.(generation := s.generation + 1,
       compound := AcceptBrowser(s.compound, Observing(s.generation + 1, scope)),
       flights := s.flights[s.generation + 1 := Reading(scope)])
  }

  function Observe(s: State): State {
    if s.disposed then s
    else
      var scope, g := ExactScope(s.scope), s.generation + 1;
      if scope.None? then Emit(s.(generation := g)) else Emit(Started(s, scope.value))
  }

  function Settle(s: State, g: nat, r: Reads): State {
    if g !in s.flights || !s.flights[g].Reading? then s
    else if !IsCurrent(s, g, s.flights[g].scope) then s.(flights := s.flights - {g})
    else s.(admitting := Some(Admission(ObservationOf(g, s.flights[g].scope, r), 0)))
  }

  function AcceptInput(s: State): State {
    if s.admitting.None? then s
    else
      var o, done := s.admitting.value.observation, s.admitting.value.done;
      var more := s.(admitting := Some(Admission(o, done + 1)));
      if done == 0 then more.(compound := AcceptServer(s.compound, o.server))
      else if done == 1 then more.(compound := AcceptCompanion(s.compound, o.companion))
      else if done == 2 then more.(compound := AcceptConversation(s.compound, o.conversation))
      else
        s.(compound := AcceptBrowser(s.compound, Current(o.generation, o.scope)),
           admitting := None,
           admitted := s.admitted + [o],
           flights := s.flights[o.generation := CallingBack(o)])
  }

  function CallbackEnds(s: State, g: nat, completed: bool): State {
    if g !in s.flights || !s.flights[g].CallingBack? then s
    else
      var landed := s.(flights := s.flights - {g});
      if completed then Emit(landed) else landed
  }

  datatype Step =
    | ScopeChanges(scope: Option<Scope>)
    | Observed
    | Settled(generation: nat, results: Reads)
    | InputAccepted
    | CallbackEnded(generation: nat, completed: bool)
    | Disposed

  /** While an admission accepts its inputs nothing else runs: there is no await between them. */
  predicate Enabled(s: State, e: Step) { s.admitting.Some? ==> e.InputAccepted? }

  function Next(s: State, e: Step): State {
    if !Enabled(s, e) then s
    else
      match e
      case ScopeChanges(scope) => s.(scope := scope)
      case Observed => Observe(s)
      case Settled(g, results) => Settle(s, g, results)
      case InputAccepted => AcceptInput(s)
      case CallbackEnded(g, completed) => CallbackEnds(s, g, completed)
      case Disposed => s.(disposed := true)
  }

  function Run(s: State, steps: seq<Step>): State
    decreases |steps|
  {
    if steps == [] then s else Run(Next(s, steps[0]), steps[1..])
  }

  // ----- what every step keeps -----

  /** `r` is READY for exactly the values that the one observation `o` read. */
  ghost predicate ReadyFrom(o: Observation, r: Relationship) {
    && r.kind == READY
    && r.generation == o.generation && r.scope == Some(o.scope)
    && o.server.current && SourceHash(r.loaded) && r.loaded == r.server == o.server.treeSha256
    && o.companion == r.companion && CompanionKind(r.companion) == READY
    && SameScope(o.conversation.scope, Some(o.scope)) && ConversationReady(o.conversation.currentness)
  }

  ghost predicate Increasing(os: seq<Observation>) {
    forall i, j :: 0 <= i < j < |os| ==> os[i].generation < os[j].generation
  }

  ghost predicate NeverBack(es: seq<Emission>) {
    forall i, j :: 0 <= i < j < |es| ==>
      es[i].generation <= es[j].generation && es[i].relationship.generation <= es[j].relationship.generation
  }

  function BrowserGeneration(c: Compound): nat { if c.browser.Some? then c.browser.value.generation else 0 }

  ghost predicate OutputInv(c: Compound) {
    c.output == if Coherent(c)
                then Derive(c.loaded.value, c.server.value, c.companion.value, c.conversation.value, c.browser.value)
                else UNOBSERVED_STATE
  }

  /** Between admissions a current browser input goes with the three inputs of the last observation admitted. */
  ghost predicate LastAdmitted(s: State) {
    s.compound.browser.Some? && s.compound.browser.value.Current? ==>
      && s.admitted != []
      && var o := s.admitted[|s.admitted|-1];
         && s.compound.browser.value == Current(o.generation, o.scope)
         && s.compound.server == Some(o.server)
         && s.compound.companion == Some(o.companion)
         && s.compound.conversation == Some(o.conversation)
  }

  ghost predicate FlightsInv(s: State) {
    && (forall g | g in s.flights :: 1 <= g <= s.generation)
    && (forall g | g in s.flights && s.flights[g].Reading? ::
          && ExactScope(Some(s.flights[g].scope)).Some?
          && (forall i :: 0 <= i < |s.admitted| ==> s.admitted[i].generation != g)
          && (g == s.generation ==> s.compound.browser == Some(Observing(g, s.flights[g].scope))))
  }

  ghost predicate AdmittingInv(s: State) {
    s.admitting.Some? ==>
      var o, done := s.admitting.value.observation, s.admitting.value.done;
      && done <= 3
      && o.generation == s.generation
      && o.generation in s.flights && s.flights[o.generation] == Reading(o.scope)
      && (done >= 1 ==> s.compound.server == Some(o.server))
      && (done >= 2 ==> s.compound.companion == Some(o.companion))
      && (done >= 3 ==> s.compound.conversation == Some(o.conversation))
  }

  ghost predicate LogInv(s: State) {
    && Increasing(s.admitted)
    && (forall i :: 0 <= i < |s.admitted| ==> s.admitted[i].generation <= s.generation)
    && BrowserGeneration(s.compound) <= s.generation
    && s.compound.output.generation <= BrowserGeneration(s.compound)
    && s.emitted != [] && NeverBack(s.emitted)
    && var last := s.emitted[|s.emitted|-1];
       && last.generation <= s.generation
       && last.relationship.generation <= s.compound.output.generation
       && (last.relationship.kind == READY ==> s.compound.browser.Some? && s.compound.browser.value.Current?
                                               && s.compound.output == last.relationship)
  }

  ghost predicate EmittedReady(s: State) {
    forall i :: 0 <= i < |s.emitted| && s.emitted[i].relationship.kind == READY ==>
      exists o :: o in s.admitted && ReadyFrom(o, s.emitted[i].relationship)
  }

  ghost predicate Inv(s: State) {
    && OutputInv(s.compound) && LastAdmitted(s) && FlightsInv(s) && AdmittingInv(s) && LogInv(s) && EmittedReady(s)
  }

  lemma InitialInv(loaded: Option<string>, scope: Option<Scope>)
    ensures Inv(Initial(loaded, scope))
  {
  }

  /** READY comes from one observation: the last one admitted. */
  lemma ReadyIsLast(s: State)
    requires OutputInv(s.compound) && LastAdmitted(s) && s.compound.output.kind == READY
    ensures s.admitted != [] && ReadyFrom(s.admitted[|s.admitted|-1], s.compound.output)
    ensures s.compound.browser.value.Current?
  {
  }

  /** The invariant before an emission, when the state last emitted may be out of date. */
  ghost predicate Emittable(s: State) {
    && OutputInv(s.compound) && LastAdmitted(s) && FlightsInv(s) && AdmittingInv(s) && EmittedReady(s)
    && Increasing(s.admitted) && BrowserGeneration(s.compound) <= s.generation
    && (forall i :: 0 <= i < |s.admitted| ==> s.admitted[i].generation <= s.generation)
    && s.compound.output.generation <= BrowserGeneration(s.compound)
    && s.emitted != [] && NeverBack(s.emitted)
    && s.emitted[|s.emitted|-1].generation <= s.generation
    && s.emitted[|s.emitted|-1].relationship.generation <= s.compound.output.generation
  }

  lemma EmitKeeps(s: State)
    requires Emittable(s)
    ensures Inv(Emit(s))
  {
    var t := Emit(s);
    if s.compound.output.kind == READY {
      ReadyIsLast(s);
      assert s.admitted[|s.admitted|-1] in t.admitted;
    }
    forall i | 0 <= i < |t.emitted| && t.emitted[i].relationship.kind == READY
      ensures exists o :: o in t.admitted && ReadyFrom(o, t.emitted[i].relationship)
    {
      if i < |s.emitted| {
        assert t.emitted[i] == s.emitted[i];
      }
    }
  }

  lemma StartKeeps(s: State, scope: Scope)
    requires Inv(s) && s.admitting.None? && ExactScope(Some(scope)).Some?
    ensures Emittable(Started(s, scope))
  {
    var t := Started(s, scope);
    StartedFlights(s, t, s.generation + 1, scope);
  }

  /** An observation without a scope only counts. */
  lemma CountKeeps(s: State)
    requires Inv(s) && s.admitting.None?
    ensures Emittable(s.(generation := s.generation + 1))
  {
  }

  lemma ObserveKeeps(s: State)
    requires Inv(s) && s.admitting.None?
    ensures Inv(Observe(s))
  {
    var scope := ExactScope(s.scope);
    if s.disposed {
    } else if scope.None? {
      CountKeeps(s);
      EmitKeeps(s.(generation := s.generation + 1));
    } else {
      StartKeeps(s, scope.value);
      EmitKeeps(Started(s, scope.value));
    }
  }

  lemma StartedFlights(s: State, t: State, g: nat, scope: Scope)
    requires FlightsInv(s) && g == s.generation + 1 && t.generation == g
    requires ExactScope(Some(scope)).Some? && t.flights == s.flights[g := Reading(scope)]
    requires t.compound.browser == Some(Observing(g, scope)) && t.admitted == s.admitted
    requires forall i :: 0 <= i < |s.admitted| ==> s.admitted[i].generation <= s.generation
    ensures FlightsInv(t)
  {
  }

  /** Accepting one more input of an admission; the state stays at most OBSERVING until the fourth. */
  lemma AcceptPartKeeps(s: State)
    requires Inv(s) && s.admitting.Some? && s.admitting.value.done < 3
    ensures Inv(AcceptInput(s)) && AcceptInput(s).compound.output.kind != READY
  {
    var o, done := s.admitting.value.observation, s.admitting.value.done;
    assert s.compound.browser == Some(Observing(o.generation, o.scope));
    var t := AcceptInput(s);
    assert t.compound.output.generation <= BrowserGeneration(t.compound);
  }

  lemma AdmitKeeps(s: State)
    requires Inv(s) && s.admitting.Some? && s.admitting.value.done == 3
    ensures Inv(AcceptInput(s))
  {
    var o := s.admitting.value.observation;
    assert s.compound.browser == Some(Observing(o.generation, o.scope));
    var t := AcceptInput(s);
    assert LastAdmitted(t) && OutputInv(t.compound) && FlightsInv(t);
    forall i | 0 <= i < |s.admitted| ensures s.admitted[i].generation < o.generation {
      assert s.admitted[i].generation != o.generation;
    }
    forall i | 0 <= i < |t.emitted| && t.emitted[i].relationship.kind == READY
      ensures exists p :: p in t.admitted && ReadyFrom(p, t.emitted[i].relationship)
    {
      var p :| p in s.admitted && ReadyFrom(p, s.emitted[i].relationship);
      assert p in t.admitted;
    }
  }

  lemma ScopeKeeps(s: State, scope: Option<Scope>)
    requires Inv(s)
    ensures Inv(s.(scope := scope))
  {
  }

  lemma DisposeKeeps(s: State)
    requires Inv(s)
    ensures Inv(s.(disposed := true))
  {
  }

  lemma LandedKeeps(s: State, g: nat)
    requires Inv(s) && s.admitting.None?
    ensures Inv(s.(flights := s.flights - {g}))
  {
  }

  lemma SettleKeeps(s: State, g: nat, r: Reads)
    requires Inv(s) && s.admitting.None?
    ensures Inv(Settle(s, g, r))
  {
    if g in s.flights && s.flights[g].Reading? {
      if IsCurrent(s, g, s.flights[g].scope) {
        AdmittingKeeps(s, Admission(ObservationOf(g, s.flights[g].scope, r), 0));
      } else {
        LandedKeeps(s, g);
      }
    }
  }

  lemma AdmittingKeeps(s: State, a: Admission)
    requires Inv(s) && s.admitting.None? && a.done == 0 && a.observation.generation == s.generation
    requires s.generation in s.flights && s.flights[s.generation] == Reading(a.observation.scope)
    ensures Inv(s.(admitting := Some(a)))
  {
  }

  lemma CallbackKeeps(s: State, g: nat, completed: bool)
    requires Inv(s) && s.admitting.None?
    ensures Inv(CallbackEnds(s, g, completed))
  {
    if g in s.flights && s.flights[g].CallingBack? {
      LandedKeeps(s, g);
      if completed {
        EmitKeeps(s.(flights := s.flights - {g}));
      }
    }
  }

  lemma NextKeeps(s: State, e: Step)
    requires Inv(s)
    ensures Inv(Next(s, e))
  {
    if Enabled(s, e) {
      match e
      case ScopeChanges(scope) => ScopeKeeps(s, scope);
      case Observed => ObserveKeeps(s);
      case Settled(g, results) => SettleKeeps(s, g, results);
      case InputAccepted =>
        if s.admitting.Some? && s.admitting.value.done == 3 {
          AdmitKeeps(s);
        } else if s.admitting.Some? {
          AcceptPartKeeps(s);
        }
      case CallbackEnded(g, completed) => CallbackKeeps(s, g, completed);
      case Disposed => DisposeKeeps(s);
    }
  }

  lemma {:induction false} RunKeeps(s: State, steps: seq<Step>)
    requires Inv(s)
    ensures Inv(Run(s, steps))
    decreases |steps|
  {
    if steps != [] {
      NextKeeps(s, steps[0]);
      RunKeeps(Next(s, steps[0]), steps[1..]);
    }
  }

  // ----- the promises, in every interleaving -----

  /** READY is coherent in every reachable state, also between the inputs of an admission: loaded and server
      hash agree, the companion is READY and the conversation ready for the same scope, and the server,
      companion and conversation values are those of one observation, the last one admitted. Every READY ever
      emitted came from one admitted observation in the same way. */
  lemma ReadyCoherent(loaded: Option<string>, scope: Option<Scope>, steps: seq<Step>)
    ensures var s := Run(Initial(loaded, scope), steps);
            s.compound.output.kind == READY ==>
              && s.admitting.None?
              && s.admitted != [] && ReadyFrom(s.admitted[|s.admitted|-1], s.compound.output)
              && var o := s.admitted[|s.admitted|-1]; s.compound.browser == Some(Current(o.generation, o.scope))
    ensures var s := Run(Initial(loaded, scope), steps);
            forall i | 0 <= i < |s.emitted| && s.emitted[i].relationship.kind == READY ::
              exists o :: o in s.admitted && ReadyFrom(o, s.emitted[i].relationship)
  {
    InitialInv(loaded, scope);
    RunKeeps(Initial(loaded, scope), steps);
  }

  /** No stale observation wins: admitted generations strictly increase, and neither the generation emitted
      nor the generation of the emitted state ever goes back. */
  lemma NoStaleWins(loaded: Option<string>, scope: Option<Scope>, steps: seq<Step>)
    ensures var s := Run(Initial(loaded, scope), steps);
            Increasing(s.admitted) && NeverBack(s.emitted)
  {
    InitialInv(loaded, scope);
    RunKeeps(Initial(loaded, scope), steps);
  }

  /** An observation that was overtaken, disposed, or whose scope was left when its reads settle leaves no
      trace in the derived state. */
  lemma StaleRejected(s: State, g: nat, r: Reads)
    requires Inv(s) && s.admitting.None? && g in s.flights && s.flights[g].Reading?
    requires s.disposed || g < s.generation || !SameScope(Some(s.flights[g].scope), s.scope)
    ensures var t := Next(s, Settled(g, r));
            && t.compound == s.compound && t.admitted == s.admitted && t.emitted == s.emitted
            && g !in t.flights && t.admitting.None?
  {
  }

  /** All four inputs of an admission, accepted one after the other. */
  function AdmitAll(s: State, o: Observation): State {
    var c1 := AcceptServer(s.compound, o.server);
    var c2 := AcceptCompanion(c1, o.companion);
    var c3 := AcceptConversation(c2, o.conversation);
    var c4 := AcceptBrowser(c3, Current(o.generation, o.scope));
    s.(compound := c4, admitting := None, admitted := s.admitted + [o],
       flights := s.flights[o.generation := CallingBack(o)])
  }

  lemma AdmitAllSteps(s: State, g: nat, r: Reads)
    requires s.admitting.None? && g in s.flights && s.flights[g].Reading? && IsCurrent(s, g, s.flights[g].scope)
    ensures Run(s, [Settled(g, r), InputAccepted, InputAccepted, InputAccepted, InputAccepted])
            == AdmitAll(s, ObservationOf(g, s.flights[g].scope, r))
  {
    RunCons(s, Settled(g, r), [InputAccepted, InputAccepted, InputAccepted, InputAccepted]);
    var s1 := Next(s, Settled(g, r));
    RunCons(s1, InputAccepted, [InputAccepted, InputAccepted, InputAccepted]);
    var s2 := Next(s1, InputAccepted);
    RunCons(s2, InputAccepted, [InputAccepted, InputAccepted]);
    var s3 := Next(s2, InputAccepted);
    RunCons(s3, InputAccepted, [InputAccepted]);
    var s4 := Next(s3, InputAccepted);
    RunCons(s4, InputAccepted, []);
  }

  lemma RunCons(s: State, e: Step, rest: seq<Step>)
    ensures Run(s, [e] + rest) == Run(Next(s, e), rest)
    ensures Run(s, []) == s
  {
    assert ([e] + rest)[1..] == rest;
  }

  /** What reads say about one another, for the scope they were made for: READY needs the loaded hash and the
      hash served to be one lower-case SHA-256 digest, the companion READY, and the conversation of that very
      scope current, empty or absent. */
  ghost predicate ReadsAgree(loaded: Option<string>, scope: Scope, r: Reads) {
    && loaded.Some? && r.server == loaded
    && |loaded.value| == 64
    && (forall k :: 0 <= k < 64 ==> '0' <= loaded.value[k] <= '9' || 'a' <= loaded.value[k] <= 'f')
    && r.companion == Some("READY")
    && r.conversation.Some? && r.conversation.value.scope == Some(scope)
    && (|| r.conversation.value.currentness == "CURRENT"
        || r.conversation.value.currentness == "EMPTY"
        || r.conversation.value.currentness == "ABSENT")
  }

  /** A scope all of whose parts are present. */
  ghost predicate Complete(scope: Scope) {
    scope.projectRef != "" && scope.threadRef != "" && scope.channelRef != ""
  }

  /** The observation `g` still waits for its reads, nothing overtook it, and its scope is the current one. */
  ghost predicate Awaited(s: State, g: nat, scope: Scope) {
    && s.admitting.None? && g in s.flights && s.flights[g] == Reading(scope)
    && !s.disposed && g == s.generation && s.scope == Some(scope)
  }

  lemma HexExactly(h: string)
    ensures Hex64(h) <==>
              |h| == 64 && forall k :: 0 <= k < 64 ==> '0' <= h[k] <= '9' || 'a' <= h[k] <= 'f'
  {
    forall k | 0 <= k < |h| ensures h[k] in h {
    }
    if |h| == 64 && forall k :: 0 <= k < 64 ==> '0' <= h[k] <= '9' || 'a' <= h[k] <= 'f' {
      forall c | c in h ensures IsHex(c) {
        var k :| 0 <= k < |h| && h[k] == c;
      }
    }
  }

  /** At the start the gate is shut, and the hash of the loaded document counts only if it is a digest. */
  lemma InitialShut(loaded: Option<string>, scope: Option<Scope>)
    ensures var s := Initial(loaded, scope);
            && s.generation == 0 && !s.disposed && s.flights == map[] && s.admitted == []
            && s.emitted == [Emission(0, s.compound.output)] && s.compound.output.kind == UNOBSERVED
            && (loaded.Some? && |loaded.value| == 64
                && (forall k :: 0 <= k < 64 ==> '0' <= loaded.value[k] <= '9' || 'a' <= loaded.value[k] <= 'f')
                ==> s.compound.loaded == loaded)
            && (s.compound.loaded.Some? ==> s.compound.loaded == loaded && Hex64(loaded.value))
  {
    if loaded.Some? {
      HexExactly(loaded.value);
    }
  }

  lemma AwaitedExactly(s: State, g: nat, scope: Scope)
    requires Inv(s) && s.admitting.None? && g in s.flights && s.flights[g] == Reading(scope)
    ensures Complete(scope) && (IsCurrent(s, g, scope) <==> Awaited(s, g, scope))
  {
  }

  /** The kind of state that reads lead to, by what fails first: the served hash, its agreement with the loaded
      one, the companion, the conversation. */
  ghost predicate KindOfReads(kind: Kind, loaded: string, scope: Scope, r: Reads) {
    && (r.server.None? || !Hex64(r.server.value) ==> kind == UNAVAILABLE)
    && (r.server.Some? && Hex64(r.server.value) && r.server.value != loaded ==> kind == SOURCE_MISMATCH)
    && (r.server == Some(loaded) && Hex64(loaded) && r.companion != Some("READY") ==>
          kind == if r.companion == Some("STARTING") then OBSERVING
                  else if r.companion == Some("RECOVERABLE") then RECOVERABLE
                  else if r.companion == Some("ACTION_REQUIRED") then ACTION_REQUIRED
                  else UNAVAILABLE)
    && (r.server == Some(loaded) && Hex64(loaded) && r.companion == Some("READY") ==>
          kind == if ReadsAgree(Some(loaded), scope, r) then READY else UNAVAILABLE)
  }

  lemma DerivedKind(loaded: string, g: nat, scope: Scope, r: Reads)
    requires Complete(scope)
    ensures var o := ObservationOf(g, scope, r);
            KindOfReads(DeriveKind(loaded, o.server, o.companion, o.conversation, Current(g, scope)), loaded, scope, r)
  {
    HexExactly(loaded);
  }

  lemma AgreeingHex(loaded: string, scope: Scope, r: Reads)
    requires ReadsAgree(Some(loaded), scope, r)
    ensures Hex64(loaded)
  {
    HexExactly(loaded);
  }

  /** What an admission derives, before its callback runs. */
  lemma AdmittedState(s: State, o: Observation, r: Reads)
    requires OutputInv(s.compound) && Complete(o.scope) && o == ObservationOf(o.generation, o.scope, r)
    ensures var t := AdmitAll(s, o).compound;
            && (s.compound.loaded.None? ==> t.output == UNOBSERVED_STATE)
            && (s.compound.loaded.Some? ==>
                  && t.output == Relationship(t.output.kind, o.generation, Some(o.scope), s.compound.loaded, r.server,
                                              o.companion, o.conversation.currentness)
                  && KindOfReads(t.output.kind, s.compound.loaded.value, o.scope, r))
            && (t.output.kind == READY <==> ReadsAgree(s.compound.loaded, o.scope, r))
  {
    if s.compound.loaded.Some? {
      var loaded := s.compound.loaded.value;
      DerivedKind(loaded, o.generation, o.scope, r);
      if ReadsAgree(Some(loaded), o.scope, r) {
        AgreeingHex(loaded, o.scope, r);
      }
    }
  }

  /** The other direction: reads that settle while the observation is current are admitted by the four inputs that
      follow, the compound holds all their values, and the state becomes READY exactly when they agree; otherwise
      its kind tells what failed first. */
  lemma CurrentAdmitted(s: State, g: nat, scope: Scope, r: Reads)
    requires Inv(s) && Awaited(s, g, scope)
    ensures var t := Run(s, [Settled(g, r), InputAccepted, InputAccepted, InputAccepted, InputAccepted]);
            var o := ObservationOf(g, scope, r);
            && t == s.(compound := t.compound, admitted := s.admitted + [o], flights := s.flights[g := CallingBack(o)])
            && t.compound == Compound(s.compound.loaded, Some(o.server), Some(o.companion), Some(o.conversation),
                                      Some(Current(g, scope)), t.compound.output)
            && (s.compound.loaded.None? ==> t.compound.output == UNOBSERVED_STATE)
            && (s.compound.loaded.Some? ==>
                  KindOfReads(t.compound.output.kind, s.compound.loaded.value, scope, r))
            && (t.compound.output.kind == READY <==> ReadsAgree(s.compound.loaded, scope, r))
            && (t.compound.output.kind == READY ==> t.compound.output.scope == Some(scope))
  {
    AwaitedExactly(s, g, scope);
    AdmitAllSteps(s, g, r);
    AdmittedState(s, ObservationOf(g, scope, r), r);
  }

  /** The other members of that state are the generation, the scope, and what was read; a read that was rejected
      counts as unavailable. */
  lemma AdmittedMembers(s: State, g: nat, scope: Scope, r: Reads)
    requires Inv(s) && Awaited(s, g, scope) && s.compound.loaded.Some?
    ensures var t := Run(s, [Settled(g, r), InputAccepted, InputAccepted, InputAccepted, InputAccepted]);
            t.compound.output ==
              Relationship(t.compound.output.kind, g, Some(scope), s.compound.loaded, r.server,
                           if r.companion.Some? then r.companion.value else "UNAVAILABLE",
                           if r.conversation.Some? then r.conversation.value.currentness else "UNAVAILABLE")
  {
    AwaitedExactly(s, g, scope);
    AdmitAllSteps(s, g, r);
    AdmittedState(s, ObservationOf(g, scope, r), r);
  }

  // ----- the send gate and the message lists of the chat -----

  datatype Channel = Channel(scope: Scope, companion: bool)

  /** The chat holds the relationship last emitted to it. */
  function ChatState(s: State): Relationship
    requires s.emitted != []
  {
    s.emitted[|s.emitted|-1].relationship
  }

  predicate ChannelAvailable(chat: Relationship, turnPending: bool, vexAvailable: bool, channel: Channel) {
    if channel.companion
    then chat.kind == READY && chat.scope == Some(channel.scope) && !turnPending
    else vexAvailable
  }

  /** The gate opens for a companion channel only for the exact scope of one admitted observation that read
      everything READY, and only while no later observation has begun for any scope. */
  lemma SendGate(loaded: Option<string>, scope: Option<Scope>, steps: seq<Step>, turnPending: bool,
                 vexAvailable: bool, channel: Channel)
    requires channel.companion
    ensures var s := Run(Initial(loaded, scope), steps);
            && s.emitted != []
            && (ChannelAvailable(ChatState(s), turnPending, vexAvailable, channel) ==>
                  && !turnPending && s.admitted != []
                  && var o := s.admitted[|s.admitted|-1];
                     && ReadyFrom(o, ChatState(s)) && o.scope == channel.scope
                     && s.compound.browser == Some(Current(o.generation, o.scope)))
  {
    InitialInv(loaded, scope);
    RunKeeps(Initial(loaded, scope), steps);
    var s := Run(Initial(loaded, scope), steps);
    if ChatState(s).kind == READY {
      ReadyIsLast(s);
    }
  }

  lemma {:induction false} RunAppend(s: State, a: seq<Step>, b: seq<Step>)
    ensures Run(s, a + b) == Run(Run(s, a), b)
    decreases |a|
  {
    if a == [] {
      assert a + b == b;
    } else {
      assert (a + b)[0] == a[0] && (a + b)[1..] == a[1..] + b;
      RunAppend(Next(s, a[0]), a[1..], b);
    }
  }

  /** Every observation that is not overtaken tells the chat how it ended, once and last: the five steps of its
      admission followed by its callback emit the state they derived, and the gate of a companion channel is open
      from then on exactly when that channel is the scope observed, the reads agree and no turn is pending. A
      callback that throws emits nothing. */
  lemma AdmittedEmits(s: State, g: nat, scope: Scope, r: Reads, completed: bool)
    requires Inv(s) && Awaited(s, g, scope)
    ensures var t := Run(s, [Settled(g, r), InputAccepted, InputAccepted, InputAccepted, InputAccepted,
                             CallbackEnded(g, completed)]);
            && t == s.(compound := t.compound, emitted := t.emitted, flights := s.flights - {g},
                       admitted := s.admitted + [ObservationOf(g, scope, r)])
            && (!completed ==> t.emitted == s.emitted)
            && (completed ==>
                  && t.emitted == s.emitted + [Emission(s.generation, t.compound.output)]
                  && forall turnPending, vexAvailable, channel: Channel | channel.companion ::
                       ChannelAvailable(ChatState(t), turnPending, vexAvailable, channel) <==>
                         !turnPending && channel.scope == scope && ReadsAgree(s.compound.loaded, scope, r))
  {
    var steps := [Settled(g, r), InputAccepted, InputAccepted, InputAccepted, InputAccepted];
    CurrentAdmitted(s, g, scope, r);
    AwaitedExactly(s, g, scope);
    RunAppend(s, steps, [CallbackEnded(g, completed)]);
    assert steps + [CallbackEnded(g, completed)] ==
           [Settled(g, r), InputAccepted, InputAccepted, InputAccepted, InputAccepted, CallbackEnded(g, completed)];
    var t := Run(s, steps);
    RunCons(t, CallbackEnded(g, completed), []);
    assert [CallbackEnded(g, completed)] + [] == [CallbackEnded(g, completed)];
  }

  lemma ObservingShut(c: Compound, generation: nat, scope: Scope)
    requires OutputInv(c)
    ensures AcceptBrowser(c, Observing(generation, scope)).output.kind != READY
  {
  }

  /** A new observation closes the gate of every companion channel at once, and is the one now awaited. */
  lemma ObservedCloses(s: State)
    requires Inv(s) && s.admitting.None? && !s.disposed && s.scope.Some? && Complete(s.scope.value)
    ensures var t := Next(s, Observed);
            && Awaited(t, s.generation + 1, s.scope.value) && t.compound.loaded == s.compound.loaded
            && |t.emitted| == |s.emitted| + 1 && t.emitted[..|s.emitted|] == s.emitted
            && t.emitted[|s.emitted|].generation == s.generation + 1 && t.admitted == s.admitted
            && forall turnPending, vexAvailable, channel: Channel | channel.companion ::
                 !ChannelAvailable(ChatState(t), turnPending, vexAvailable, channel)
  {
    ObservingShut(s.compound, s.generation + 1, s.scope.value);
  }

  /** Without a complete scope an observation only counts, and says again what was said; after disposal it does
      nothing. */
  lemma ObservedInVain(s: State)
    requires s.admitting.None? && (s.disposed || s.scope.None? || !Complete(s.scope.value))
    ensures Next(s, Observed) ==
              if s.disposed then s
              else s.(generation := s.generation + 1,
                      emitted := s.emitted + [Emission(s.generation + 1, s.compound.output)])
  {
  }

  /** The chat was told, and with no turn pending the channel of the scope is open just if `ready`. */
  ghost predicate DecidesGate(t: State, scope: Scope, vexAvailable: bool, ready: bool) {
    && t.emitted != []
    && (ChannelAvailable(ChatState(t), false, vexAvailable, Channel(scope, true)) <==> ready)
  }

  lemma AdmittedDecides(s: State, g: nat, scope: Scope, r: Reads, vexAvailable: bool)
    requires Inv(s) && Awaited(s, g, scope)
    ensures DecidesGate(Run(s, [Settled(g, r), InputAccepted, InputAccepted, InputAccepted, InputAccepted,
                                CallbackEnded(g, true)]),
                        scope, vexAvailable, ReadsAgree(s.compound.loaded, scope, r))
  {
    AdmittedEmits(s, g, scope, r, true);
  }

  /** From every state in which no admission is under way, whatever was observed before: an observation of a
      complete scope whose reads agree opens the gate of that channel, and one whose reads do not agree leaves
      it shut. */
  lemma ObservationDecidesGate(s: State, begun: State, scope: Scope, r: Reads, vexAvailable: bool)
    requires Inv(s) && s.admitting.None? && !s.disposed && s.scope == Some(scope) && Complete(scope)
    requires begun == Next(s, Observed)
    ensures DecidesGate(Run(begun, [Settled(s.generation + 1, r), InputAccepted, InputAccepted, InputAccepted,
                                    InputAccepted, CallbackEnded(s.generation + 1, true)]),
                        scope, vexAvailable, ReadsAgree(s.compound.loaded, scope, r))
  {
    assert Inv(begun) by { ObserveKeeps(s); }
    ObservedCloses(s);
    AdmittedDecides(begun, s.generation + 1, scope, r, vexAvailable);
  }

  /** Which scope is current changes by that step alone, and disposal is for good: from then on nothing is
      admitted and nothing derived. */
  lemma {:induction false} DisposedQuiet(s: State, steps: seq<Step>)
    requires s.disposed && s.admitting.None?
    ensures var t := Run(s, steps);
            && t.disposed && t.admitting.None?
            && t.generation == s.generation && t.compound == s.compound && t.admitted == s.admitted
    decreases |steps|
  {
    if steps != [] {
      DisposedQuiet(Next(s, steps[0]), steps[1..]);
    }
  }

  lemma OutsideSteps(s: State, scope: Option<Scope>)
    requires s.admitting.None?
    ensures Next(s, ScopeChanges(scope)) == s.(scope := scope)
    ensures Next(s, Disposed) == s.(disposed := true)
  {
  }

  /** A message list refreshed under an observation token: the body arrives later, and replaces the list of
      its channel only while the token is still current. A failed fetch replaces nothing. */
  function RefreshArrives<M>(s: State, lists: map<Scope, seq<M>>, generation: nat, token: Scope,
                             channel: Scope, body: Option<seq<M>>): map<Scope, seq<M>> {
    if body.Some? && IsCurrent(s, generation, token) then lists[channel := body.value] else lists
  }

  /** A refresh started under the generation of a state replaces the list of its channel exactly when a body
      arrives, no observation of any kind began and no disposal happened since, and the current scope is still
      the token's; no other list changes at all. */
  lemma {:induction false} RefreshNotStale<M>(s: State, steps: seq<Step>, lists: map<Scope, seq<M>>, token: Scope,
                                              channel: Scope, body: Option<seq<M>>)
    requires Inv(s)
    ensures var t := Run(s, steps);
            RefreshArrives(t, lists, s.generation, token, channel, body) ==
              if body.Some? && Begun(s, steps) == 0 && !t.disposed && Complete(token) && t.scope == Some(token)
              then lists[channel := body.value] else lists
  {
    GenerationCounts(s, steps);
  }

  /** How many observations began along a run. */
  function Begun(s: State, steps: seq<Step>): nat
    decreases |steps|
  {
    if steps == [] then 0
    else
      (if Enabled(s, steps[0]) && steps[0].Observed? && !s.disposed then 1 else 0)
      + Begun(Next(s, steps[0]), steps[1..])
  }

  /** The generation counts the observations that began, and nothing else changes it. */
  lemma {:induction false} GenerationCounts(s: State, steps: seq<Step>)
    ensures Run(s, steps).generation == s.generation + Begun(s, steps)
    decreases |steps|
  {
    if steps != [] {
      GenerationCounts(Next(s, steps[0]), steps[1..]);
    }
  }

  // ----- the controller -----

  class Controller {
    var generation: nat
    var disposed: bool
    var currentScope: Option<Scope>
    var compound: Compound
    var flights: map<nat, Flight>
    var admitting: Option<Admission>
    ghost var admitted: seq<Observation>
    var emitted: seq<Emission>

    ghost function View(): State
      reads this
    {
      State(generation, disposed, currentScope, compound, flights, admitting, admitted, emitted)
    }

    constructor (loaded: Option<string>, scope: Option<Scope>)
      ensures View() == Initial(loaded, scope)
    {
      generation, disposed, currentScope := 0, false, scope;
      compound := Compound(if SourceHash(loaded) then loaded else None, None, None, None, None, UNOBSERVED_STATE);
      flights, admitting, admitted := map[], None, [];
      emitted := [Emission(0, UNOBSERVED_STATE)];
    }

    method EmitState()
      modifies this`emitted
      ensures View() == Emit(old(View()))
    {
      emitted := emitted + [Emission(generation, compound.output)];
    }

    /** observe() up to its first await. */
    method ObserveStart()
      modifies this
      ensures View() == Observe(old(View()))
    {
      if disposed {
        return;
      }
      var scope := ExactScope(currentScope);
      if scope.None? {
        generation := generation + 1;
        EmitState();
        return;
      }
      generation := generation + 1;
      compound := AcceptBrowser(compound, Observing(generation, scope.value));
      flights := flights[generation := Reading(scope.value)];
      EmitState();
    }

    /** observe() from the settled reads to its admission callback; false when it was stale. */
    method ReadsSettled(g: nat, results: Reads) returns (isAdmitted: bool)
      requires admitting.None? && g in flights && flights[g].Reading?
      modifies this
      ensures isAdmitted <==> IsCurrent(old(View()), g, old(flights)[g].scope)
      ensures !isAdmitted ==> View() == Next(old(View()), Settled(g, results))
      ensures isAdmitted ==> View() == Run(old(View()), [Settled(g, results), InputAccepted, InputAccepted,
                                                         InputAccepted, InputAccepted])
    {
      if IsCurrent(View(), g, flights[g].scope) {
        AdmitAllSteps(View(), g, results);
      }
      var scope := flights[g].scope;
      if disposed || g != generation || !SameScope(Some(scope), currentScope) {
        flights := flights - {g};
        return false;
      }
      var o := ObservationOf(g, scope, results);
      compound := AcceptServer(compound, o.server);
      compound := AcceptCompanion(compound, o.companion);
      compound := AcceptConversation(compound, o.conversation);
      compound := AcceptBrowser(compound, Current(g, scope));
      admitted := admitted + [o];
      flights := flights[g := CallingBack(o)];
      return true;
    }

    /** observe() after its admission callback, which either completed or threw. */
    method CallbackEnd(g: nat, completed: bool)
      requires g in flights && flights[g].CallingBack?
      modifies this
      ensures View() == CallbackEnds(old(View()), g, completed)
      ensures completed ==> emitted == old(emitted) + [Emission(generation, compound.output)]
      ensures !completed ==> emitted == old(emitted)
      ensures flights == old(flights) - {g} && compound == old(compound) && generation == old(generation)
    {
      flights := flights - {g};
      if completed {
        EmitState();
      }
    }

    method Dispose()
      modifies this`disposed
      ensures View() == old(View()).(disposed := true)
    {
      disposed := true;
    }
  }
}
