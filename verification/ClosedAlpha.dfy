/** The closed-alpha delivery machine: one state object whose fields the event handlers assign. */
module ClosedAlpha {
  import opened Common

  /** What a select may yield: a text the code compares with or starts from, or any other text. */
  datatype Value = NONE | DEFER | ACCEPT | NARROW | NOT_CONNECTED | RECEIVED_VERIFIED_REFERENCE | EXPIRED_OR_REVOKED
                 | VERIFIED_CURRENT | AVAILABLE_FOR_INVITES | UNREACHABLE_OR_LEASE_EXPIRED
                 | DIRECT_CANDIDATE | UNAVAILABLE
                 | IDENTITY_CHECK_FAILED | PEER_UNREACHABLE | RELAY_UNAVAILABLE | Other(text: string)

  datatype State = State(consented: bool, invitation: Value, decision: Value, identity: Value, presence: Value,
                         route: Value, failure: Value, delivery: Value,
                         revoked: bool, withdrawn: bool, exported: bool, disconnected: bool)

  const INITIAL := State(false, NONE, DEFER, VERIFIED_CURRENT, AVAILABLE_FOR_INVITES, DIRECT_CANDIDATE, NONE,
                         NOT_CONNECTED, false, false, false, false)

  datatype Event = Consent | Invite(value: Value) | Decide(value: Value) | Identify(value: Value)
                 | Appear(value: Value) | Route(value: Value) | Fail(value: Value) | Deliver(value: Value)
                 | Revoke | Withdraw | Export | Disconnect | Reset

  predicate Permits(decision: Value) { decision == ACCEPT || decision == NARROW }

  /** No reset-free future: participation was revoked, withdrawn or disconnected. */
  predicate Closed(s: State) { s.revoked || s.withdrawn || s.disconnected }

  predicate CanAdvance(s: State) {
    && !Closed(s) && s.consented && s.invitation == RECEIVED_VERIFIED_REFERENCE && Permits(s.decision)
    && s.identity == VERIFIED_CURRENT && s.route != UNAVAILABLE && s.failure == NONE
  }

  /** A hold sets its own failure and stops delivery; its release clears only that failure. */
  function Held(s: State, held: bool, failure: Value): State {
    if held then s.(failure := failure, delivery := NOT_CONNECTED)
    else if s.failure == failure then s.(failure := NONE)
    else s
  }

  function Next(s: State, e: Event): State {
    match e
    case Consent => if s.withdrawn then s else s.(consented := true)
    case Invite(v) => s.(invitation := v, decision := DEFER, delivery := NOT_CONNECTED)
    case Decide(v) =>
      if s.withdrawn || s.revoked || s.invitation != RECEIVED_VERIFIED_REFERENCE then s
      else s.(decision := v, delivery := if Permits(v) then s.delivery else NOT_CONNECTED)
    case Identify(v) => Held(s.(identity := v), v != VERIFIED_CURRENT, IDENTITY_CHECK_FAILED)
    case Appear(v) => Held(s.(presence := v), v == UNREACHABLE_OR_LEASE_EXPIRED, PEER_UNREACHABLE)
    case Route(v) => Held(s.(route := v), v == UNAVAILABLE, RELAY_UNAVAILABLE)
    case Fail(v) => s.(failure := v, delivery := if v != NONE then NOT_CONNECTED else s.delivery)
    case Deliver(v) => if CanAdvance(s) then s.(delivery := v) else s
    case Revoke => s.(revoked := true, invitation := EXPIRED_OR_REVOKED, decision := DEFER, delivery := NOT_CONNECTED)
    case Withdraw => s.(withdrawn := true, delivery := NOT_CONNECTED)
    case Export => s.(exported := true)
    case Disconnect => s.(disconnected := true, delivery := NOT_CONNECTED)
    case Reset => INITIAL
  }

  /** A machine folded over its events; the step is a parameter so that facts about runs do not depend on it. */
  function Fold<S, E>(next: (S, E) -> S, s: S, es: seq<E>): S {
    if es == [] then s else next(Fold(next, s, es[..|es|-1]), es[|es|-1])
  }

  lemma FoldSnoc<S, E>(next: (S, E) -> S, s: S, es: seq<E>, e: E)
    ensures Fold(next, s, es + [e]) == next(Fold(next, s, es), e)
  {
    assert (es + [e])[..|es|] == es;
  }

  lemma FoldThree<S, E>(next: (S, E) -> S, s: S, es: seq<E>, a: E, b: E, c: E)
    ensures Fold(next, s, es + [a, b, c]) == next(next(next(Fold(next, s, es), a), b), c)
  {
    var one, two := es + [a], es + [a, b];
    FoldSnoc(next, s, es, a);
    FoldSnoc(next, s, one, b);
    FoldSnoc(next, s, two, c);
    Snocs(es, a, b, c);
  }

  lemma Snocs<E>(es: seq<E>, a: E, b: E, c: E)
    ensures es + [a] + [b] == es + [a, b] && es + [a, b] + [c] == es + [a, b, c]
  {
  }

  function Run(s: State, es: seq<Event>): State { Fold(Next, s, es) }

  // ----- the delivery invariant -----

  predicate Guarded(s: State) { s.delivery != NOT_CONNECTED ==> CanAdvance(s) }

  lemma NextGuarded(s: State, e: Event)
    requires Guarded(s)
    ensures Guarded(Next(s, e))
  {
  }

  /** In every state a sequence of handlers reaches, delivery has left NOT_CONNECTED only where it may advance. */
  lemma {:induction false} DeliveryGuarded(es: seq<Event>)
    ensures Guarded(Run(INITIAL, es))
  {
    if es != [] {
      DeliveryGuarded(es[..|es|-1]);
      NextGuarded(Run(INITIAL, es[..|es|-1]), es[|es|-1]);
    }
  }

  lemma {:induction false} StaysClosed(s: State, es: seq<Event>)
    requires Guarded(s) && Closed(s) && Reset !in es
    ensures Closed(Run(s, es)) && Guarded(Run(s, es))
  {
    if es != [] {
      var init := es[..|es|-1];
      assert Reset !in init && es[|es|-1] in es;
      StaysClosed(s, init);
      NextGuarded(Run(s, init), es[|es|-1]);
    }
  }

  function Agreeing(): seq<Event> { [Consent, Invite(RECEIVED_VERIFIED_REFERENCE), Decide(ACCEPT)] }

  function Unholding(): seq<Event> { [Identify(VERIFIED_CURRENT), Route(DIRECT_CANDIDATE), Fail(NONE)] }

  /** The handlers a user goes through to connect. */
  function Connecting(delivery: Value): seq<Event> { Agreeing() + Unholding() + [Deliver(delivery)] }

  lemma Agrees(s: State)
    requires !Closed(s)
    ensures var t := Next(Next(Next(s, Consent), Invite(RECEIVED_VERIFIED_REFERENCE)), Decide(ACCEPT));
            t.consented && t.invitation == RECEIVED_VERIFIED_REFERENCE && Permits(t.decision) && !Closed(t)
  {
  }

  lemma Unholds(s: State)
    requires s.consented && s.invitation == RECEIVED_VERIFIED_REFERENCE && Permits(s.decision) && !Closed(s)
    ensures CanAdvance(Next(Next(Next(s, Identify(VERIFIED_CURRENT)), Route(DIRECT_CANDIDATE)), Fail(NONE)))
  {
  }

  lemma Connects(s: State, delivery: Value)
    requires !Closed(s)
    ensures Run(s, Connecting(delivery)).delivery == delivery
  {
    var agreeing, unholding := Agreeing(), Unholding();
    FoldThree(Next, s, [], agreeing[0], agreeing[1], agreeing[2]);
    assert [] + [agreeing[0], agreeing[1], agreeing[2]] == agreeing;
    Agrees(s);
    FoldThree(Next, s, agreeing, unholding[0], unholding[1], unholding[2]);
    Unholds(Run(s, agreeing));
    FoldSnoc(Next, s, agreeing + unholding, Deliver(delivery));
  }

  /** Delivery can be brought to a connected value without a reset if and only if participation was not revoked,
      withdrawn or disconnected. */
  lemma OpenExactly(s: State, delivery: Value)
    requires Guarded(s) && delivery != NOT_CONNECTED
    ensures (exists es :: Reset !in es && Run(s, es).delivery == delivery) <==> !Closed(s)
  {
    if Closed(s) {
      forall es | Reset !in es ensures Run(s, es).delivery != delivery {
        StaysClosed(s, es);
      }
    } else {
      Connects(s, delivery);
      assert Reset !in Connecting(delivery);
    }
  }

  // ----- what must have happened before delivery -----

  /** The events since the last reset. */
  function SinceReset(es: seq<Event>): seq<Event> {
    if es == [] || es[|es|-1] == Reset then [] else SinceReset(es[..|es|-1]) + [es[|es|-1]]
  }

  /** Event `i` is a received invitation, and none came after it. */
  predicate LastInvited(h: seq<Event>, i: int) {
    0 <= i < |h| && h[i] == Invite(RECEIVED_VERIFIED_REFERENCE) && forall k :: i < k < |h| ==> !h[k].Invite?
  }

  predicate AgreedAt(h: seq<Event>, j: int) {
    0 <= j < |h| && h[j].Decide? && Permits(h[j].value)
  }

  /** What a state tells about the events since the last reset. */
  predicate RecallsFlags(s: State, h: seq<Event>) {
    && (s.consented ==> Consent in h)
    && (s.revoked <==> Revoke in h) && (s.withdrawn <==> Withdraw in h) && (s.disconnected <==> Disconnect in h)
  }

  ghost predicate RecallsInvitation(s: State, h: seq<Event>) {
    s.invitation == RECEIVED_VERIFIED_REFERENCE ==> exists i :: LastInvited(h, i)
  }

  ghost predicate Agreed(h: seq<Event>) { exists i, j :: LastInvited(h, i) && AgreedAt(h, j) && i < j }

  ghost predicate RecallsDecision(s: State, h: seq<Event>) { Permits(s.decision) ==> Agreed(h) }

  ghost predicate Recalls(s: State, h: seq<Event>) {
    RecallsFlags(s, h) && RecallsInvitation(s, h) && RecallsDecision(s, h)
  }

  lemma LastInvitedGrows(h: seq<Event>, i: int, e: Event)
    requires LastInvited(h, i) && !e.Invite?
    ensures LastInvited(h + [e], i)
  {
  }

  lemma NextRecallsFlags(s: State, h: seq<Event>, e: Event)
    requires RecallsFlags(s, h) && e != Reset
    ensures RecallsFlags(Next(s, e), h + [e])
  {
    assert forall x :: x in h + [e] <==> x in h || x == e;
  }

  lemma NextRecallsInvitation(s: State, h: seq<Event>, e: Event)
    requires RecallsInvitation(s, h) && e != Reset
    ensures RecallsInvitation(Next(s, e), h + [e])
  {
    if e.Invite? {
      assert e.value == RECEIVED_VERIFIED_REFERENCE ==> LastInvited(h + [e], |h|);
    } else if s.invitation == RECEIVED_VERIFIED_REFERENCE {
      var i :| LastInvited(h, i);
      LastInvitedGrows(h, i, e);
    }
  }

  /** Only a decision on the received invitation can permit, and only a decision, an invitation, a revocation or
      a reset changes it. */
  lemma DecisionOf(s: State, e: Event)
    requires Permits(Next(s, e).decision) && e != Reset
    ensures !e.Invite?
    ensures Permits(s.decision) || (e.Decide? && Permits(e.value) && s.invitation == RECEIVED_VERIFIED_REFERENCE)
  {
  }

  lemma NextRecallsDecision(s: State, h: seq<Event>, e: Event)
    requires RecallsInvitation(s, h) && RecallsDecision(s, h) && e != Reset && Permits(Next(s, e).decision)
    ensures Agreed(h + [e])
  {
    DecisionOf(s, e);
    if Permits(s.decision) {
      var i, j :| LastInvited(h, i) && AgreedAt(h, j) && i < j;
      LastInvitedGrows(h, i, e);
      assert AgreedAt(h + [e], j);
    } else {
      var i :| LastInvited(h, i);
      LastInvitedGrows(h, i, e);
      assert AgreedAt(h + [e], |h|);
    }
  }

  lemma NextRecalls(s: State, h: seq<Event>, e: Event)
    requires Recalls(s, h) && e != Reset
    ensures Recalls(Next(s, e), h + [e])
  {
    NextRecallsFlags(s, h, e);
    NextRecallsInvitation(s, h, e);
    if Permits(Next(s, e).decision) {
      NextRecallsDecision(s, h, e);
    }
  }

  lemma {:induction false} RunRecalls(es: seq<Event>)
    ensures Recalls(Run(INITIAL, es), SinceReset(es))
  {
    if es != [] && es[|es|-1] != Reset {
      RunRecalls(es[..|es|-1]);
      NextRecalls(Run(INITIAL, es[..|es|-1]), SinceReset(es[..|es|-1]), es[|es|-1]);
    }
  }

  // ----- what the handlers leave, field by field -----

  /** What the last event that speaks of a field says, or what the field starts as. */
  function Latest(h: seq<Event>, says: Event -> Option<Value>, start: Value): Value {
    if h == [] then start
    else if says(h[|h|-1]).Some? then says(h[|h|-1]).value
    else Latest(h[..|h|-1], says, start)
  }

  lemma LatestSnoc(h: seq<Event>, e: Event, says: Event -> Option<Value>, start: Value)
    ensures Latest(h + [e], says, start) == if says(e).Some? then says(e).value else Latest(h, says, start)
  {
    assert (h + [e])[..|h|] == h;
  }

  function OfIdentity(e: Event): Option<Value> { if e.Identify? then Some(e.value) else None }

  function OfPresence(e: Event): Option<Value> { if e.Appear? then Some(e.value) else None }

  function OfRoute(e: Event): Option<Value> { if e.Route? then Some(e.value) else None }

  function OfInvitation(e: Event): Option<Value> {
    if e.Invite? then Some(e.value) else if e.Revoke? then Some(EXPIRED_OR_REVOKED) else None
  }

  /** The selects: the choice made last, since the last reset; a revocation speaks of the invitation too. */
  ghost predicate Chosen(s: State, h: seq<Event>) {
    && s.identity == Latest(h, OfIdentity, VERIFIED_CURRENT)
    && s.presence == Latest(h, OfPresence, AVAILABLE_FOR_INVITES)
    && s.route == Latest(h, OfRoute, DIRECT_CANDIDATE)
    && s.invitation == Latest(h, OfInvitation, NONE)
  }

  /** Some consent was given before any withdrawal. */
  ghost predicate ConsentStands(h: seq<Event>) {
    exists i :: 0 <= i < |h| && h[i] == Consent && Withdraw !in h[..i]
  }

  /** The buttons: pressed since the last reset; consent only while nothing was withdrawn before. */
  ghost predicate Pressed(s: State, h: seq<Event>) {
    && (s.revoked <==> Revoke in h) && (s.withdrawn <==> Withdraw in h)
    && (s.exported <==> Export in h) && (s.disconnected <==> Disconnect in h)
    && (s.consented <==> ConsentStands(h))
  }

  lemma NextSelects(s: State, e: Event)
    requires e != Reset
    ensures var t := Next(s, e);
            && t.identity == (if e.Identify? then e.value else s.identity)
            && t.presence == (if e.Appear? then e.value else s.presence)
            && t.route == (if e.Route? then e.value else s.route)
            && t.invitation == if e.Invite? then e.value else if e.Revoke? then EXPIRED_OR_REVOKED else s.invitation
  {
    match e
    case Identify(v) =>
    case Appear(v) =>
    case Route(v) =>
    case _ =>
  }

  lemma NextButtons(s: State, e: Event)
    requires e != Reset
    ensures var t := Next(s, e);
            && t.revoked == (s.revoked || e.Revoke?) && t.withdrawn == (s.withdrawn || e.Withdraw?)
            && t.exported == (s.exported || e.Export?) && t.disconnected == (s.disconnected || e.Disconnect?)
            && t.consented == (s.consented || (e.Consent? && !s.withdrawn))
  {
    match e
    case Identify(v) =>
    case Appear(v) =>
    case Route(v) =>
    case _ =>
  }

  lemma NextChosen(s: State, h: seq<Event>, t: State, e: Event)
    requires Chosen(s, h)
    requires t.identity == (if e.Identify? then e.value else s.identity)
    requires t.presence == (if e.Appear? then e.value else s.presence)
    requires t.route == (if e.Route? then e.value else s.route)
    requires t.invitation == if e.Invite? then e.value else if e.Revoke? then EXPIRED_OR_REVOKED else s.invitation
    ensures Chosen(t, h + [e])
  {
    LatestSnoc(h, e, OfIdentity, VERIFIED_CURRENT);
    LatestSnoc(h, e, OfPresence, AVAILABLE_FOR_INVITES);
    LatestSnoc(h, e, OfRoute, DIRECT_CANDIDATE);
    LatestSnoc(h, e, OfInvitation, NONE);
  }

  lemma InSnoc(h: seq<Event>, e: Event, x: Event)
    ensures x in h + [e] <==> x in h || x == e
  {
  }

  lemma ConsentSnoc(h: seq<Event>, e: Event)
    ensures ConsentStands(h + [e]) <==> ConsentStands(h) || (e == Consent && Withdraw !in h)
  {
    var all := h + [e];
    assert all[|h|] == e && all[..|h|] == h;
    if i :| 0 <= i < |all| && all[i] == Consent && Withdraw !in all[..i] {
      if i < |h| {
        assert h[i] == Consent && h[..i] == all[..i];
      }
    }
    if i :| 0 <= i < |h| && h[i] == Consent && Withdraw !in h[..i] {
      assert all[i] == Consent && all[..i] == h[..i];
    }
  }

  lemma NextPressed(s: State, h: seq<Event>, t: State, e: Event)
    requires Pressed(s, h)
    requires t.revoked == (s.revoked || e.Revoke?) && t.withdrawn == (s.withdrawn || e.Withdraw?)
    requires t.exported == (s.exported || e.Export?) && t.disconnected == (s.disconnected || e.Disconnect?)
    requires t.consented == (s.consented || (e.Consent? && !s.withdrawn))
    ensures Pressed(t, h + [e])
  {
    InSnoc(h, e, Revoke);
    InSnoc(h, e, Withdraw);
    InSnoc(h, e, Export);
    InSnoc(h, e, Disconnect);
    ConsentSnoc(h, e);
  }

  /** What the state tells of the events since the last reset, exactly, over any sequence of handlers. */
  lemma {:induction false} HistoryTold(es: seq<Event>)
    ensures var s, h := Run(INITIAL, es), SinceReset(es); Chosen(s, h) && Pressed(s, h)
  {
    if es != [] && es[|es|-1] != Reset {
      var init, e := es[..|es|-1], es[|es|-1];
      HistoryTold(init);
      var s := Run(INITIAL, init);
      NextSelects(s, e);
      NextButtons(s, e);
      NextChosen(s, SinceReset(init), Next(s, e), e);
      NextPressed(s, SinceReset(init), Next(s, e), e);
    }
  }

  /** What sets a failure: the failure select itself, an identity that is not verified, an unreachable peer, a route
      that is not available, each overwriting what was there; and which failure a recovery of those takes back. */
  function Failing(e: Event): Option<Value> {
    if e.Fail? then Some(e.value)
    else if e.Identify? && e.value != VERIFIED_CURRENT then Some(IDENTITY_CHECK_FAILED)
    else if e == Appear(UNREACHABLE_OR_LEASE_EXPIRED) then Some(PEER_UNREACHABLE)
    else if e == Route(UNAVAILABLE) then Some(RELAY_UNAVAILABLE)
    else None
  }

  function Recovering(e: Event): Option<Value> {
    if e == Identify(VERIFIED_CURRENT) then Some(IDENTITY_CHECK_FAILED)
    else if e.Appear? && e.value != UNREACHABLE_OR_LEASE_EXPIRED then Some(PEER_UNREACHABLE)
    else if e.Route? && e.value != UNAVAILABLE then Some(RELAY_UNAVAILABLE)
    else None
  }

  /** The failure and the decision after one more event. */
  lemma NextHolds(s: State, e: Event)
    requires e != Reset
    ensures Next(s, e).failure == if Failing(e).Some? then Failing(e).value
                                  else if Recovering(e) == Some(s.failure) then NONE else s.failure
    ensures Next(s, e).decision == if e.Invite? || e.Revoke? then DEFER
                                   else if e.Decide? && !s.withdrawn && !s.revoked
                                           && s.invitation == RECEIVED_VERIFIED_REFERENCE then e.value
                                   else s.decision
  {
    match e
    case Identify(v) =>
    case Appear(v) =>
    case Route(v) =>
    case _ =>
  }

  /** The delivery select moves the delivery exactly where everything is in order. */
  lemma DeliverExactly(s: State, v: Value)
    ensures Next(s, Deliver(v)) ==
              if !s.withdrawn && !s.revoked && !s.disconnected && s.consented
                 && s.invitation == RECEIVED_VERIFIED_REFERENCE && (s.decision == ACCEPT || s.decision == NARROW)
                 && s.identity == VERIFIED_CURRENT && s.route != UNAVAILABLE && s.failure == NONE
              then s.(delivery := v) else s
  {
  }

  /** Every other event stops it or leaves it: it is stopped by a new invitation, a decision taken that does not
      permit, a failure set, a revocation, a withdrawal and a disconnection. */
  lemma OthersStop(s: State, e: Event)
    requires e != Reset && !e.Deliver?
    ensures Next(s, e).delivery ==
              if e.Invite? || e.Revoke? || e.Withdraw? || e.Disconnect?
                 || (Failing(e).Some? && Failing(e) != Some(NONE))
                 || (e.Decide? && e.value != ACCEPT && e.value != NARROW
                     && !s.withdrawn && !s.revoked && s.invitation == RECEIVED_VERIFIED_REFERENCE)
              then NOT_CONNECTED else s.delivery
  {
    match e
    case Identify(v) =>
    case Appear(v) =>
    case Route(v) =>
    case _ =>
  }

  /** A delivery that left NOT_CONNECTED was earned since the last reset: consent was given before any withdrawal, an
      invitation was received with none after it and accepted or narrowed later, nothing was revoked, withdrawn or
      disconnected, the identity chosen last is verified, the route chosen last available, and no failure stands. */
  lemma DeliveryEarned(es: seq<Event>)
    requires Run(INITIAL, es).delivery != NOT_CONNECTED
    ensures var h := SinceReset(es);
            && Consent in h && Revoke !in h && Withdraw !in h && Disconnect !in h
            && Agreed(h)
            && Latest(h, OfIdentity, VERIFIED_CURRENT) == VERIFIED_CURRENT
            && Latest(h, OfRoute, DIRECT_CANDIDATE) != UNAVAILABLE
            && Run(INITIAL, es).failure == NONE
  {
    DeliveryGuarded(es);
    RunRecalls(es);
    HistoryTold(es);
  }

  // ----- presence is not part of the guard -----

  /** The events that decide, whatever the failure was, whether it is that of an unreachable peer. */
  predicate Deciding(e: Event) {
    || e == Reset || e.Appear? || e.Fail? || e == Route(UNAVAILABLE) || (e.Identify? && e.value != VERIFIED_CURRENT)
  }

  function LastDeciding(es: seq<Event>): Option<Event> {
    if es == [] then None
    else if Deciding(es[|es|-1]) then Some(es[|es|-1])
    else LastDeciding(es[..|es|-1])
  }

  predicate SaysUnreachable(e: Event) { e == Appear(UNREACHABLE_OR_LEASE_EXPIRED) || e == Fail(PEER_UNREACHABLE) }

  /** How long an unreachable peer holds delivery, exactly, over any sequence of handlers: its failure stands if and
      only if the last deciding event says so, or there was none and it stood before; and while it stands delivery
      is stopped. */
  lemma {:induction false} PeerHeld(s: State, es: seq<Event>)
    requires Guarded(s)
    ensures var t, last := Run(s, es), LastDeciding(es);
            && (t.failure == PEER_UNREACHABLE <==>
                  if last.Some? then SaysUnreachable(last.value) else s.failure == PEER_UNREACHABLE)
            && (t.failure == PEER_UNREACHABLE ==> t.delivery == NOT_CONNECTED && !CanAdvance(t))
    ensures Guarded(Run(s, es))
  {
    if es != [] {
      var init := es[..|es|-1];
      PeerHeld(s, init);
      NextGuarded(Run(s, init), es[|es|-1]);
      PeerDecided(Run(s, init), es[|es|-1]);
    }
  }

  lemma PeerDecided(s: State, e: Event)
    ensures Next(s, e).failure == PEER_UNREACHABLE <==>
              if Deciding(e) then SaysUnreachable(e) else s.failure == PEER_UNREACHABLE
  {
  }

  /** Presence untouched: no reset, no presence event, and the presence as it was. */
  ghost predicate PresenceKept(s: State, es: seq<Event>) {
    Reset !in es && (forall e | e in es :: !e.Appear?) && Run(s, es).presence == s.presence
  }

  /** Whatever the presence is, delivery can be brought to a connected value without a reset and without touching the
      presence, if and only if participation was not revoked, withdrawn or disconnected. */
  lemma PresenceIgnoredExactly(s: State, delivery: Value)
    requires Guarded(s) && delivery != NOT_CONNECTED
    ensures (exists es :: PresenceKept(s, es) && Run(s, es).delivery == delivery) <==> !Closed(s)
  {
    if Closed(s) {
      forall es | PresenceKept(s, es) ensures Run(s, es).delivery != delivery {
        StaysClosed(s, es);
      }
    } else {
      Connects(s, delivery);
      NoPresence(s, Connecting(delivery));
      assert Reset !in Connecting(delivery);
    }
  }

  lemma NextPresence(s: State, e: Event)
    requires e != Reset && !e.Appear?
    ensures Next(s, e).presence == s.presence
  {
    match e
    case Identify(v) =>
      assert Held(s.(identity := v), v != VERIFIED_CURRENT, IDENTITY_CHECK_FAILED).presence == s.presence;
    case Route(v) => assert Held(s.(route := v), v == UNAVAILABLE, RELAY_UNAVAILABLE).presence == s.presence;
    case _ =>
  }

  lemma {:induction false} NoPresence(s: State, es: seq<Event>)
    requires Reset !in es && forall e | e in es :: !e.Appear?
    ensures Run(s, es).presence == s.presence
  {
    if es != [] {
      assert es[|es|-1] in es && forall e | e in es[..|es|-1] :: e in es;
      NoPresence(s, es[..|es|-1]);
      NextPresence(Run(s, es[..|es|-1]), es[|es|-1]);
    }
  }

  /** An unavailable route overwrites the failure of an unreachable peer, and its recovery clears it: from every
      state that may advance, delivery goes on to an unreachable peer. */
  lemma UnreachableButDelivering(s: State, route: Value, delivery: Value)
    requires CanAdvance(s) && route != UNAVAILABLE
    ensures var t := Run(s, Rerouting(route) + [Deliver(delivery)]);
            t.presence == UNREACHABLE_OR_LEASE_EXPIRED && CanAdvance(t) && t.delivery == delivery
  {
    var es := Rerouting(route);
    FoldThree(Next, s, [], es[0], es[1], es[2]);
    assert [] + [es[0], es[1], es[2]] == es;
    FoldSnoc(Next, s, es, Deliver(delivery));
    RelayClears(s, route);
  }

  lemma RelayClears(s: State, route: Value)
    requires s.failure == NONE && route != UNAVAILABLE
    ensures Next(Next(Next(s, Appear(UNREACHABLE_OR_LEASE_EXPIRED)), Route(UNAVAILABLE)), Route(route)) ==
              s.(presence := UNREACHABLE_OR_LEASE_EXPIRED, route := route, delivery := NOT_CONNECTED)
  {
  }

  function Rerouting(route: Value): seq<Event> {
    [Appear(UNREACHABLE_OR_LEASE_EXPIRED), Route(UNAVAILABLE), Route(route)]
  }

  // ----- the state object and its handlers -----

  class Page {
    var alphaConsentAcknowledged: bool
    var invitation: Value
    var decision: Value
    var identity: Value
    var presence: Value
    var route: Value
    var failure: Value
    var delivery: Value
    var revoked: bool
    var withdrawn: bool
    var exported: bool
    var disconnected: bool

    constructor ()
      ensures View() == INITIAL
    {
      var first := INITIAL;
      alphaConsentAcknowledged, invitation, decision := first.consented, first.invitation, first.decision;
      identity, presence, route := first.identity, first.presence, first.route;
      failure, delivery := first.failure, first.delivery;
      revoked, withdrawn, exported, disconnected := first.revoked, first.withdrawn, first.exported, first.disconnected;
    }

    function View(): State
      reads this
    {
      State(alphaConsentAcknowledged, invitation, decision, identity, presence, route, failure, delivery,
            revoked, withdrawn, exported, disconnected)
    }

    method OnConsent()
      modifies this
      ensures View() == Next(old(View()), Consent)
    {
      if !withdrawn {
        alphaConsentAcknowledged := true;
      }
    }

    method OnInvitation(value: Value)
      modifies this
      ensures View() == Next(old(View()), Invite(value))
    {
      invitation, decision, delivery := value, DEFER, NOT_CONNECTED;
    }

    method OnDecision(value: Value)
      modifies this
      ensures View() == Next(old(View()), Decide(value))
    {
      if !withdrawn && !revoked && invitation == RECEIVED_VERIFIED_REFERENCE {
        decision := value;
        if !Permits(decision) {
          delivery := NOT_CONNECTED;
        }
      }
    }

    method OnIdentity(value: Value)
      modifies this
      ensures View() == Next(old(View()), Identify(value))
    {
      identity := value;
      if identity != VERIFIED_CURRENT {
        failure, delivery := IDENTITY_CHECK_FAILED, NOT_CONNECTED;
      } else if failure == IDENTITY_CHECK_FAILED {
        failure := NONE;
      }
    }

    method OnPresence(value: Value)
      modifies this
      ensures View() == Next(old(View()), Appear(value))
    {
      presence := value;
      if presence == UNREACHABLE_OR_LEASE_EXPIRED {
        failure, delivery := PEER_UNREACHABLE, NOT_CONNECTED;
      } else if failure == PEER_UNREACHABLE {
        failure := NONE;
      }
    }

    method OnRoute(value: Value)
      modifies this
      ensures View() == Next(old(View()), Route(value))
    {
      route := value;
      if route == UNAVAILABLE {
        failure, delivery := RELAY_UNAVAILABLE, NOT_CONNECTED;
      } else if failure == RELAY_UNAVAILABLE {
        failure := NONE;
      }
    }

    method OnFailure(value: Value)
      modifies this
      ensures View() == Next(old(View()), Fail(value))
    {
      failure := value;
      if failure != NONE {
        delivery := NOT_CONNECTED;
      }
    }

    method OnDelivery(value: Value)
      modifies this
      ensures View() == Next(old(View()), Deliver(value))
    {
      if CanAdvance(View()) {
        delivery := value;
      }
    }

    method OnRevoke()
      modifies this
      ensures View() == Next(old(View()), Revoke)
    {
      revoked, invitation, decision, delivery := true, EXPIRED_OR_REVOKED, DEFER, NOT_CONNECTED;
    }

    method OnWithdraw()
      modifies this
      ensures View() == Next(old(View()), Withdraw)
    {
      withdrawn, delivery := true, NOT_CONNECTED;
    }

    method OnExport()
      modifies this
      ensures View() == Next(old(View()), Export)
    {
      exported := true;
    }

    method OnDisconnect()
      modifies this
      ensures View() == Next(old(View()), Disconnect)
    {
      disconnected, delivery := true, NOT_CONNECTED;
    }

    /** Object.assign: every field but the locale. */
    method Assign(first: State)
      modifies this
      ensures View() == first
    {
      alphaConsentAcknowledged, invitation, decision := first.consented, first.invitation, first.decision;
      identity, presence, route := first.identity, first.presence, first.route;
      failure, delivery := first.failure, first.delivery;
      revoked, withdrawn, exported, disconnected := first.revoked, first.withdrawn, first.exported, first.disconnected;
    }

    method OnReset()
      modifies this
      ensures View() == Next(old(View()), Reset)
    {
      Assign(INITIAL);
    }

    /** The handler bound to an event. */
    method Handle(e: Event)
      modifies this
      ensures View() == Next(old(View()), e)
    {
      match e
      case Consent => OnConsent();
      case Invite(value) => OnInvitation(value);
      case Decide(value) => OnDecision(value);
      case Identify(value) => OnIdentity(value);
      case Appear(value) => OnPresence(value);
      case Route(value) => OnRoute(value);
      case Fail(value) => OnFailure(value);
      case Deliver(value) => OnDelivery(value);
      case Revoke => OnRevoke();
      case Withdraw => OnWithdraw();
      case Export => OnExport();
      case Disconnect => OnDisconnect();
      case Reset => OnReset();
    }
  }

  /** The handlers one after the other are the run of the machine. */
  method Replay(es: seq<Event>) returns (p: Page)
    ensures fresh(p) && p.View() == Run(INITIAL, es)
  {
    p := new Page();
    for k := 0 to |es|
      invariant fresh(p) && p.View() == Run(INITIAL, es[..k])
    {
      assert es[..k+1][..k] == es[..k];
      p.Handle(es[k]);
    }
    assert es[..|es|] == es;
  }
}
