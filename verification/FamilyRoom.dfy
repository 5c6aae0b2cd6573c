/** The family room projection: a snapshot of rooms is installed into the shared roles, channels and message
    map of the chat, and taken out again before the next one.

    Taking out is `Removed`; installing is `Installed`. The exact result of one after the other is computed
    for every snapshot, so that the condition for reversibility is exact too. */
module FamilyRoom {
  import opened Common
  import opened ScopeKeys

  const FAMILY_PROJECT := "project.vexlife.root-hub"
  const FAMILY_THREAD := "thread.root-hub.welcome"

  datatype Role = Role(actorRef: string, avatar: string, projected: bool)

  /** Roles by key, in insertion order; a key occurs at most once. */
  datatype Entry = Entry(key: string, role: Role)

  datatype Channel = Channel(scope: Scope, roleKey: string, memberKeys: seq<string>, projected: bool)

  /** A room: the principals of its audience, its companion and its channel. */
  datatype Room = Room(audience: seq<string>, companionRef: string, channelRef: string)

  datatype Chat<M> = Chat(roles: seq<Entry>, channels: seq<Channel>, messages: map<string, seq<M>>,
                          injected: set<string>)

  // ----- roles -----

  predicate HasKey(roles: seq<Entry>, key: string) { exists i :: 0 <= i < |roles| && roles[i].key == key }

  ghost predicate Distinct(roles: seq<Entry>) {
    forall i, j :: 0 <= i < j < |roles| ==> roles[i].key != roles[j].key
  }

  function RoleAt(roles: seq<Entry>, key: string): Option<Role> {
    if roles == [] then None
    else if roles[0].key == key then Some(roles[0].role)
    else RoleAt(roles[1..], key)
  }

  /** The first key whose role acts for a principal. */
  function KeyOfActor(roles: seq<Entry>, actorRef: string): Option<string> {
    if roles == [] then None
    else if roles[0].role.actorRef == actorRef then Some(roles[0].key)
    else KeyOfActor(roles[1..], actorRef)
  }

  /** Assignment to a key: in place when it exists, at the end otherwise. */
  function Put(roles: seq<Entry>, key: string, role: Role): seq<Entry> {
    if roles == [] then [Entry(key, role)]
    else if roles[0].key == key then [Entry(key, role)] + roles[1..]
    else [roles[0]] + Put(roles[1..], key, role)
  }

  function DropKeys(roles: seq<Entry>, keys: set<string>): seq<Entry> {
    if roles == [] then []
    else (if roles[0].key in keys then [] else [roles[0]]) + DropKeys(roles[1..], keys)
  }

  lemma {:induction false} RoleAtIff(roles: seq<Entry>, key: string)
    ensures RoleAt(roles, key).Some? <==> HasKey(roles, key)
  {
    if roles != [] {
      RoleAtIff(roles[1..], key);
      assert HasKey(roles, key) <==> roles[0].key == key || HasKey(roles[1..], key) by {
        assert forall i :: 1 <= i < |roles| ==> roles[i] == roles[1..][i-1];
        if HasKey(roles[1..], key) {
          var i :| 0 <= i < |roles[1..]| && roles[1..][i].key == key;
          assert roles[i+1].key == key;
        }
      }
    }
  }

  lemma {:induction false} PutRoleAt(roles: seq<Entry>, key: string, role: Role, other: string)
    ensures RoleAt(Put(roles, key, role), other) == if other == key then Some(role) else RoleAt(roles, other)
  {
    if roles != [] {
      PutRoleAt(roles[1..], key, role, other);
    }
  }

  lemma {:induction false} DropPut(roles: seq<Entry>, key: string, role: Role, keys: set<string>)
    requires key in keys
    ensures DropKeys(Put(roles, key, role), keys) == DropKeys(roles, keys)
  {
    if roles != [] && roles[0].key != key {
      DropPut(roles[1..], key, role, keys);
    }
  }

  lemma {:induction false} DropTwice(roles: seq<Entry>, a: set<string>, b: set<string>)
    ensures DropKeys(DropKeys(roles, a), b) == DropKeys(roles, a + b)
  {
    if roles != [] {
      DropTwice(roles[1..], a, b);
      var rest := DropKeys(roles[1..], a);
      if roles[0].key in a {
        assert DropKeys(roles, a) == rest;
      } else {
        assert DropKeys(roles, a) == [roles[0]] + rest;
        assert ([roles[0]] + rest)[1..] == rest;
      }
    }
  }

  lemma {:induction false} DropAbsent(roles: seq<Entry>, keys: set<string>)
    requires forall e | e in roles :: e.key !in keys
    ensures DropKeys(roles, keys) == roles
  {
    if roles != [] {
      assert roles[0] in roles && forall e | e in roles[1..] :: e in roles;
      DropAbsent(roles[1..], keys);
    }
  }

  lemma {:induction false} DropMembers(roles: seq<Entry>, keys: set<string>, e: Entry)
    ensures e in DropKeys(roles, keys) <==> e in roles && e.key !in keys
  {
    if roles != [] {
      DropMembers(roles[1..], keys, e);
    }
  }

  lemma {:induction false} ActorKeyIs(roles: seq<Entry>, actorRef: string)
    requires Distinct(roles)
    ensures var k := KeyOfActor(roles, actorRef);
            && (k.Some? ==> RoleAt(roles, k.value).Some? && RoleAt(roles, k.value).value.actorRef == actorRef)
            && (k.None? ==> forall e | e in roles :: e.role.actorRef != actorRef)
  {
    if roles != [] && roles[0].role.actorRef != actorRef {
      ActorKeyIs(roles[1..], actorRef);
      var k := KeyOfActor(roles[1..], actorRef);
      if k.Some? {
        RoleAtIff(roles[1..], k.value);
        var i :| 0 <= i < |roles[1..]| && roles[1..][i].key == k.value;
        assert roles[i+1].key == k.value;
      }
    }
  }

  // ----- taking out -----

  function Unprojected(channels: seq<Channel>): seq<Channel> {
    if channels == [] then []
    else
      var last := channels[|channels|-1];
      Unprojected(channels[..|channels|-1]) + if last.projected then [] else [last]
  }

  /** Keys of the message lists of projected channels. */
  function ProjectedKeys(channels: seq<Channel>): set<string> {
    set i | 0 <= i < |channels| && channels[i].projected :: ConversationKey(channels[i].scope)
  }

  function Removed<M>(c: Chat<M>): Chat<M> {
    Chat(DropKeys(c.roles, c.injected), Unprojected(c.channels), c.messages - ProjectedKeys(c.channels), {})
  }

  // ----- putting in -----

  function HumanKey(index: nat): string { "family-human-" + Decimal(index + 1) }

  function VexKey(roomIndex: nat): string { "family-vex-" + Decimal(roomIndex + 1) }

  function RoleKeyFor(roles: seq<Entry>, principal: string, index: nat): string {
    var existing := KeyOfActor(roles, principal);
    if existing.Some? then existing.value else HumanKey(index)
  }

  function AddMember<M>(c: Chat<M>, principal: string, index: nat): Chat<M> {
    var key := RoleKeyFor(c.roles, principal, index);
    if RoleAt(c.roles, key).Some? then c
    else c.(roles := Put(c.roles, key, Role(principal, Decimal(index + 1), true)), injected := c.injected + {key})
  }

  /** The chat and the key of each principal after the first `k` members of an audience. */
  function AddMembers<M>(c: Chat<M>, audience: seq<string>, k: nat): (Chat<M>, map<string, string>)
    requires k <= |audience|
  {
    if k == 0 then (c, map[])
    else
      var (d, keys) := AddMembers(c, audience, k - 1);
      (AddMember(d, audience[k-1], k - 1),
       keys[audience[k-1] := RoleKeyFor(d.roles, audience[k-1], k - 1)])
  }

  function RoomScope(room: Room): Scope { Scope(FAMILY_PROJECT, FAMILY_THREAD, room.channelRef) }

  function AddVex<M>(c: Chat<M>, room: Room, roomIndex: nat): Chat<M> {
    c.(roles := Put(c.roles, VexKey(roomIndex), Role(room.companionRef, "V", true)),
       injected := c.injected + {VexKey(roomIndex)})
  }

  function AddChannel<M>(c: Chat<M>, channel: Channel): Chat<M> {
    c.(channels := c.channels + [channel], messages := c.messages[ConversationKey(channel.scope) := []])
  }

  function Lookup(keys: map<string, string>, principal: string): string {
    if principal in keys then keys[principal] else ""
  }

  function MemberKeys(keys: map<string, string>, audience: seq<string>): (r: seq<string>)
    ensures |r| == |audience| && forall i :: 0 <= i < |r| ==> r[i] == Lookup(keys, audience[i])
  {
    seq(|audience|, i requires 0 <= i < |audience| => Lookup(keys, audience[i]))
  }

  function RoomChannel(room: Room, roomIndex: nat, keys: map<string, string>): Channel {
    var byRef := keys[room.companionRef := VexKey(roomIndex)];
    Channel(RoomScope(room), VexKey(roomIndex), MemberKeys(byRef, room.audience) + [VexKey(roomIndex)], true)
  }

  function AddRoom<M>(c: Chat<M>, room: Room, roomIndex: nat): Chat<M> {
    var (d, keys) := AddMembers(c, room.audience, |room.audience|);
    AddChannel(AddVex(d, room, roomIndex), RoomChannel(room, roomIndex, keys))
  }

  function AddRooms<M>(c: Chat<M>, rooms: seq<Room>, k: nat): Chat<M>
    requires k <= |rooms|
  {
    if k == 0 then c else AddRoom(AddRooms(c, rooms, k - 1), rooms[k-1], k - 1)
  }

  function Installed<M>(c: Chat<M>, rooms: seq<Room>): Chat<M> { AddRooms(Removed(c), rooms, |rooms|) }

  // ----- what taking out undoes, exactly -----

  function VexKeys(k: nat): set<string> { set i | 0 <= i < k :: VexKey(i) }

  function RoomKeys(rooms: seq<Room>, k: nat): set<string>
    requires k <= |rooms|
  {
    set i | 0 <= i < k :: ConversationKey(RoomScope(rooms[i]))
  }

  /** A chat less everything a snapshot may overwrite. */
  function Spared<M>(c: Chat<M>, rooms: seq<Room>, k: nat): Chat<M>
    requires k <= |rooms|
  {
    Chat(DropKeys(c.roles, VexKeys(k)), c.channels, c.messages - RoomKeys(rooms, k), {})
  }

  lemma RoleAbsent(roles: seq<Entry>, key: string, keys: set<string>)
    requires RoleAt(roles, key).None?
    ensures DropKeys(DropKeys(roles, keys), {key}) == DropKeys(roles, keys)
  {
    RoleAtIff(roles, key);
    forall e | e in DropKeys(roles, keys) ensures e.key !in {key} {
      DropMembers(roles, keys, e);
      var i :| 0 <= i < |roles| && roles[i] == e;
    }
    DropAbsent(DropKeys(roles, keys), {key});
  }

  /** Adding a member adds at most an injected role under a free key: taking out is not affected. */
  lemma MemberRemoved<M>(c: Chat<M>, principal: string, index: nat)
    ensures Removed(AddMember(c, principal, index)) == Removed(c)
  {
    var key := RoleKeyFor(c.roles, principal, index);
    if RoleAt(c.roles, key).None? {
      DropPut(c.roles, key, Role(principal, Decimal(index + 1), true), c.injected + {key});
      DropTwice(c.roles, c.injected, {key});
      RoleAbsent(c.roles, key, c.injected);
    }
  }

  lemma {:induction false} MembersRemoved<M>(c: Chat<M>, audience: seq<string>, k: nat)
    requires k <= |audience|
    ensures Removed(AddMembers(c, audience, k).0) == Removed(c)
  {
    if k > 0 {
      MembersRemoved(c, audience, k - 1);
      MemberRemoved(AddMembers(c, audience, k - 1).0, audience[k-1], k - 1);
    }
  }

  lemma VexRemoved<M>(c: Chat<M>, room: Room, roomIndex: nat)
    ensures Removed(AddVex(c, room, roomIndex)) ==
              Removed(c).(roles := DropKeys(Removed(c).roles, {VexKey(roomIndex)}))
  {
    DropPut(c.roles, VexKey(roomIndex), Role(room.companionRef, "V", true), c.injected + {VexKey(roomIndex)});
    DropTwice(c.roles, c.injected, {VexKey(roomIndex)});
  }

  lemma ChannelRemoved<M>(c: Chat<M>, channel: Channel)
    requires channel.projected
    ensures Removed(AddChannel(c, channel)) ==
              Removed(c).(messages := Removed(c).messages - {ConversationKey(channel.scope)})
  {
    var key := ConversationKey(channel.scope);
    var longer := c.channels + [channel];
    assert longer[..|c.channels|] == c.channels;
    assert ProjectedKeys(longer) == ProjectedKeys(c.channels) + {key} by {
      assert longer[|c.channels|] == channel;
      forall k | k in ProjectedKeys(c.channels) ensures k in ProjectedKeys(longer) {
        var i :| 0 <= i < |c.channels| && c.channels[i].projected && ConversationKey(c.channels[i].scope) == k;
        assert longer[i] == c.channels[i];
      }
    }
  }

  lemma RoomRemoved<M>(c: Chat<M>, room: Room, roomIndex: nat)
    ensures var r := Removed(c);
            Removed(AddRoom(c, room, roomIndex)) ==
              Chat(DropKeys(r.roles, {VexKey(roomIndex)}), r.channels,
                   r.messages - {ConversationKey(RoomScope(room))}, {})
  {
    var (d, keys) := AddMembers(c, room.audience, |room.audience|);
    MembersRemoved(c, room.audience, |room.audience|);
    VexRemoved(d, room, roomIndex);
    ChannelRemoved(AddVex(d, room, roomIndex), RoomChannel(room, roomIndex, keys));
  }

  lemma SparedNone<M>(c: Chat<M>, rooms: seq<Room>)
    requires c.injected == {}
    ensures Spared(c, rooms, 0) == c
  {
    DropAbsent(c.roles, {});
    assert VexKeys(0) == {} && RoomKeys(rooms, 0) == {};
    assert c.messages - {} == c.messages;
  }

  lemma SparedOne<M>(c: Chat<M>, rooms: seq<Room>, k: nat)
    requires k < |rooms|
    ensures Spared(c, rooms, k + 1) ==
              Chat(DropKeys(Spared(c, rooms, k).roles, {VexKey(k)}), c.channels,
                   Spared(c, rooms, k).messages - {ConversationKey(RoomScope(rooms[k]))}, {})
  {
    DropTwice(c.roles, VexKeys(k), {VexKey(k)});
    assert VexKeys(k + 1) == VexKeys(k) + {VexKey(k)};
    assert RoomKeys(rooms, k + 1) == RoomKeys(rooms, k) + {ConversationKey(RoomScope(rooms[k]))};
  }

  /** Taking a snapshot out again leaves exactly what it did not overwrite. */
  lemma {:induction false} RoomsRemoved<M>(c: Chat<M>, rooms: seq<Room>, k: nat)
    requires k <= |rooms| && Removed(c) == c
    ensures Removed(AddRooms(c, rooms, k)) == Spared(c, rooms, k)
  {
    if k == 0 {
      SparedNone(c, rooms);
    } else {
      var d := AddRooms(c, rooms, k - 1);
      RoomsRemoved(c, rooms, k - 1);
      RoomRemoved(d, rooms[k-1], k - 1);
      SparedOne(c, rooms, k - 1);
      assert AddRooms(c, rooms, k) == AddRoom(d, rooms[k-1], k - 1);
    }
  }

  /** The snapshot's companion keys and message lists are free in the base. Human keys need no condition. */
  ghost predicate NoCollision<M>(base: Chat<M>, rooms: seq<Room>) {
    && (forall e | e in base.roles :: e.key !in VexKeys(|rooms|))
    && forall key | key in base.messages :: key !in RoomKeys(rooms, |rooms|)
  }

  /** Reversibility, exactly: installing a snapshot into a base and taking it out again gives the base back,
      order included, if and only if no companion key and no message list of the snapshot is taken. */
  lemma ReversibleExactly<M>(base: Chat<M>, rooms: seq<Room>)
    requires Removed(base) == base
    ensures Removed(Installed(base, rooms)) == base <==> NoCollision(base, rooms)
  {
    RoomsRemoved(base, rooms, |rooms|);
    var spared := Spared(base, rooms, |rooms|);
    if NoCollision(base, rooms) {
      DropAbsent(base.roles, VexKeys(|rooms|));
      assert spared.messages == base.messages;
    }
    if spared == base {
      forall e | e in base.roles ensures e.key !in VexKeys(|rooms|) {
        DropMembers(base.roles, VexKeys(|rooms|), e);
      }
      forall key | key in base.messages ensures key !in RoomKeys(rooms, |rooms|) {
        assert key in spared.messages;
      }
    }
  }

  // ----- any run of refreshes -----

  /** What one refresh brings: nothing usable, or a snapshot with the messages read for its rooms. */
  datatype Refresh<M> = Held | Fetched(rooms: seq<Room>, bodies: map<string, seq<M>>)

  function FilledIn<M>(lists: map<string, seq<M>>, keys: set<string>, bodies: map<string, seq<M>>)
    : map<string, seq<M>>
  {
    map key | key in lists :: if key in bodies && key in keys then bodies[key] else lists[key]
  }

  /** The messages of projected channels are replaced by what was read for them. */
  function Filled<M>(c: Chat<M>, bodies: map<string, seq<M>>): Chat<M> {
    c.(messages := FilledIn(c.messages, ProjectedKeys(c.channels), bodies))
  }

  function Refreshed<M>(c: Chat<M>, r: Refresh<M>): Chat<M> {
    match r
    case Held => Removed(c)
    case Fetched(rooms, bodies) => Filled(Installed(c, rooms), bodies)
  }

  function Run<M>(c: Chat<M>, rs: seq<Refresh<M>>): Chat<M> {
    if rs == [] then c else Refreshed(Run(c, rs[..|rs|-1]), rs[|rs|-1])
  }

  lemma FilledRemoved<M>(c: Chat<M>, bodies: map<string, seq<M>>)
    ensures Removed(Filled(c, bodies)) == Removed(c)
  {
    assert Filled(c, bodies).messages - ProjectedKeys(c.channels) == c.messages - ProjectedKeys(c.channels);
  }

  lemma {:induction false} NoneProjected(channels: seq<Channel>)
    ensures forall channel | channel in Unprojected(channels) :: !channel.projected
    ensures Unprojected(Unprojected(channels)) == Unprojected(channels)
    ensures ProjectedKeys(Unprojected(channels)) == {}
  {
    if channels != [] {
      var init, last := channels[..|channels|-1], channels[|channels|-1];
      NoneProjected(init);
      var u := Unprojected(init);
      if last.projected {
        assert Unprojected(channels) == u;
      } else {
        var longer := u + [last];
        assert Unprojected(channels) == longer;
        assert longer[..|longer|-1] == u && longer[|longer|-1] == last;
      }
    }
  }

  /** The projection is reversible over any run of refreshes: the chat is always the base plus the projection
      of the last snapshot alone, or the bare base when the last refresh was held; messages of base
      channels keep their contents. */
  lemma {:induction false} RunProjects<M>(base: Chat<M>, rs: seq<Refresh<M>>)
    requires Removed(base) == base
    requires forall r | r in rs && r.Fetched? :: NoCollision(base, r.rooms)
    ensures Removed(Run(base, rs)) == base
    ensures rs != [] && rs[|rs|-1].Held? ==> Run(base, rs) == base
    ensures rs != [] && rs[|rs|-1].Fetched? ==>
              Run(base, rs) == Filled(AddRooms(base, rs[|rs|-1].rooms, |rs[|rs|-1].rooms|), rs[|rs|-1].bodies)
  {
    if rs != [] {
      var init, r := rs[..|rs|-1], rs[|rs|-1];
      assert r in rs && forall q | q in init :: q in rs;
      RunProjects(base, init);
      if r.Fetched? {
        ReversibleExactly(base, r.rooms);
        FilledRemoved(AddRooms(base, r.rooms, |r.rooms|), r.bodies);
      }
    }
  }

  // ----- refreshes that overlap -----

  /** What refreshes do to the shared state without an await in between: a snapshot arrives and is installed, a refresh
      ends held, or the messages of a room arrive. */
  datatype Piece<M> = Install(rooms: seq<Room>) | Hold | Fill(key: string, body: seq<M>)

  /** A room whose list is gone when its messages arrive makes its refresh end held. */
  function FillOrHold<M>(c: Chat<M>, key: string, body: seq<M>): Chat<M> {
    if key in c.messages then c.(messages := c.messages[key := body]) else Removed(c)
  }

  function Step<M>(c: Chat<M>, p: Piece<M>): Chat<M> {
    match p
    case Install(rooms) => Installed(c, rooms)
    case Hold => Removed(c)
    case Fill(key, body) => FillOrHold(c, key, body)
  }

  function Steps<M>(c: Chat<M>, ps: seq<Piece<M>>): Chat<M> {
    if ps == [] then c else Step(Steps(c, ps[..|ps|-1]), ps[|ps|-1])
  }

  /** The snapshot in force, and what arrived for its rooms since it was installed. */
  datatype InForce<M> = Nothing | Snapshot(rooms: seq<Room>, bodies: map<string, seq<M>>)

  function StepInForce<M>(f: InForce<M>, p: Piece<M>): InForce<M> {
    match p
    case Install(rooms) => Snapshot(rooms, map[])
    case Hold => Nothing
    case Fill(key, body) =>
      if f.Snapshot? && key in RoomKeys(f.rooms, |f.rooms|) then Snapshot(f.rooms, f.bodies[key := body]) else Nothing
  }

  function StepsInForce<M>(ps: seq<Piece<M>>): InForce<M> {
    if ps == [] then Nothing else StepInForce(StepsInForce(ps[..|ps|-1]), ps[|ps|-1])
  }

  /** The base with the snapshot in force and nothing else. */
  function Projected<M>(base: Chat<M>, f: InForce<M>): Chat<M> {
    match f
    case Nothing => base
    case Snapshot(rooms, bodies) => Filled(AddRooms(base, rooms, |rooms|), bodies)
  }

  /** What an arriving piece may bring: a snapshot that is free in the base, messages of no base list. */
  ghost predicate Free<M>(base: Chat<M>, p: Piece<M>) {
    && (p.Install? ==> NoCollision(base, p.rooms))
    && (p.Fill? ==> p.key !in base.messages)
  }

  /** The lists of an installed snapshot are those of the base and those of its rooms. */
  lemma ProjectedLists<M>(base: Chat<M>, rooms: seq<Room>, key: string)
    requires Removed(base) == base && NoCollision(base, rooms) && key !in base.messages
    ensures key in AddRooms(base, rooms, |rooms|).messages <==> key in RoomKeys(rooms, |rooms|)
    ensures ProjectedKeys(AddRooms(base, rooms, |rooms|).channels) == RoomKeys(rooms, |rooms|)
  {
    var c := AddRooms(base, rooms, |rooms|);
    ReversibleExactly(base, rooms);
    NoneProjected(base.channels);
    RoomsListed(base, rooms, |rooms|);
    assert base.messages == c.messages - ProjectedKeys(c.channels);
  }

  lemma FillProjected<M>(base: Chat<M>, f: InForce<M>, key: string, body: seq<M>)
    requires Removed(base) == base && key !in base.messages
    requires f.Snapshot? ==> NoCollision(base, f.rooms)
    ensures FillOrHold(Projected(base, f), key, body) == Projected(base, StepInForce(f, Fill(key, body)))
  {
    if f.Snapshot? {
      var c := AddRooms(base, f.rooms, |f.rooms|);
      ProjectedLists(base, f.rooms, key);
      if key in c.messages {
        FilledOne(c.messages, ProjectedKeys(c.channels), f.bodies, key, body);
      } else {
        FilledRemoved(c, f.bodies);
        ReversibleExactly(base, f.rooms);
      }
    }
  }

  lemma FilledOne<M>(lists: map<string, seq<M>>, keys: set<string>, bodies: map<string, seq<M>>, key: string,
                     body: seq<M>)
    requires key in lists && key in keys
    ensures FilledIn(lists, keys, bodies)[key := body] == FilledIn(lists, keys, bodies[key := body])
  {
  }

  /** Messages that arrive for a list that is gone leave nothing projected at all, whatever was installed. */
  lemma LateFillTakesOut<M>(c: Chat<M>, key: string, body: seq<M>)
    requires key !in c.messages
    ensures var t := Step(c, Fill(key, body));
            && (forall channel | channel in t.channels :: !channel.projected && channel in c.channels)
            && (forall channel | channel in c.channels && !channel.projected :: channel in t.channels)
            && (forall e | e in t.roles :: e in c.roles && e.key !in c.injected)
            && key !in t.messages && t.injected == {}
  {
    NoneProjected(c.channels);
    forall channel ensures channel in Unprojected(c.channels) <==> channel in c.channels && !channel.projected {
      UnprojectedMembers(c.channels, channel);
    }
    forall e ensures e in DropKeys(c.roles, c.injected) <==> e in c.roles && e.key !in c.injected {
      DropMembers(c.roles, c.injected, e);
    }
  }

  lemma {:induction false} UnprojectedMembers(channels: seq<Channel>, channel: Channel)
    ensures channel in Unprojected(channels) <==> channel in channels && !channel.projected
  {
    if channels != [] {
      UnprojectedMembers(channels[..|channels|-1], channel);
      assert channels == channels[..|channels|-1] + [channels[|channels|-1]];
    }
  }

  lemma StepProjected<M>(base: Chat<M>, f: InForce<M>, p: Piece<M>)
    requires Removed(base) == base && Free(base, p)
    requires f.Snapshot? ==> NoCollision(base, f.rooms)
    ensures Step(Projected(base, f), p) == Projected(base, StepInForce(f, p))
  {
    if f.Snapshot? {
      FilledRemoved(AddRooms(base, f.rooms, |f.rooms|), f.bodies);
      ReversibleExactly(base, f.rooms);
    }
    match p
    case Install(rooms) => FilledNone(AddRooms(base, rooms, |rooms|));
    case Hold =>
    case Fill(key, body) => FillProjected(base, f, key, body);
  }

  lemma FilledNone<M>(c: Chat<M>)
    ensures Filled(c, map[]) == c
  {
    assert FilledIn(c.messages, ProjectedKeys(c.channels), map[]) == c.messages;
  }

  /** However the pieces of any number of refreshes interleave, the chat is the base with the snapshot in force, the
      last one installed and not taken out since, and nothing else: roles, channels and their order, and every list. */
  lemma {:induction false} OverlapsProject<M>(base: Chat<M>, ps: seq<Piece<M>>)
    requires Removed(base) == base
    requires forall p | p in ps :: Free(base, p)
    ensures Steps(base, ps) == Projected(base, StepsInForce(ps))
    ensures StepsInForce(ps).Snapshot? ==> NoCollision(base, StepsInForce(ps).rooms)
    ensures Removed(Steps(base, ps)) == base
  {
    if ps != [] {
      var init, p := ps[..|ps|-1], ps[|ps|-1];
      assert p in ps && forall q | q in init :: q in ps;
      OverlapsProject(base, init);
      StepProjected(base, StepsInForce(init), p);
    }
    var f := StepsInForce(ps);
    if f.Snapshot? {
      FilledRemoved(AddRooms(base, f.rooms, |f.rooms|), f.bodies);
      ReversibleExactly(base, f.rooms);
    }
  }

  // ----- whom a member key names -----

  /** After a member was added, its key names its own principal exactly when a role of that principal existed,
      or its index-based key was free. */
  lemma MemberKeyExactly<M>(c: Chat<M>, principal: string, index: nat)
    requires Distinct(c.roles)
    ensures var key := RoleKeyFor(c.roles, principal, index);
            var r := RoleAt(AddMember(c, principal, index).roles, key);
            && r.Some?
            && (r.value.actorRef == principal <==>
                  KeyOfActor(c.roles, principal).Some? || !HasKey(c.roles, HumanKey(index)))
  {
    var key := RoleKeyFor(c.roles, principal, index);
    ActorKeyIs(c.roles, principal);
    RoleAtIff(c.roles, key);
    PutRoleAt(c.roles, key, Role(principal, Decimal(index + 1), true), key);
    if KeyOfActor(c.roles, principal).None? && RoleAt(c.roles, key).Some? {
      RoleMember(c.roles, key);
    }
  }

  lemma {:induction false} RoleMember(roles: seq<Entry>, key: string)
    requires RoleAt(roles, key).Some?
    ensures Entry(key, RoleAt(roles, key).value) in roles
  {
    if roles[0].key != key {
      RoleMember(roles[1..], key);
    }
  }

  lemma HumanKeysDiffer(i: nat, j: nat)
    requires HumanKey(i) == HumanKey(j)
    ensures i == j
  {
    var p := |"family-human-"|;
    assert HumanKey(i)[p..] == Decimal(i + 1) && HumanKey(j)[p..] == Decimal(j + 1);
    DecimalRoundTrip(i + 1);
    DecimalRoundTrip(j + 1);
  }

  lemma HumanNotVex(i: nat, j: nat)
    ensures HumanKey(i) != VexKey(j)
  {
    assert HumanKey(i)[7] == 'h' && VexKey(j)[7] == 'v';
  }

  lemma {:induction false} PutDistinct(roles: seq<Entry>, key: string, role: Role)
    requires Distinct(roles)
    ensures Distinct(Put(roles, key, role))
    ensures forall e | e in Put(roles, key, role) :: e.key == key || e in roles
  {
    if roles != [] && roles[0].key != key {
      PutDistinct(roles[1..], key, role);
      var p := Put(roles, key, role);
      forall j | 1 <= j < |p| ensures p[j].key != p[0].key {
        assert p[j] == Put(roles[1..], key, role)[j-1];
        assert p[j] in Put(roles[1..], key, role);
        if p[j].key != key {
          assert p[j] in roles[1..];
        }
      }
    } else if roles != [] {
      var p := Put(roles, key, role);
      assert forall j :: 1 <= j < |p| ==> p[j] == roles[j];
    }
  }

  // ----- whom the keys of an installed snapshot name -----

  /** The role a member's key names once the member was added. */
  function NamedRole(roles: seq<Entry>, principal: string, index: nat): Role {
    var r := RoleAt(roles, RoleKeyFor(roles, principal, index));
    if r.Some? then r.value else Role(principal, Decimal(index + 1), true)
  }

  lemma {:induction false} PutActor(roles: seq<Entry>, key: string, role: Role, actorRef: string)
    requires RoleAt(roles, key).None? && role.actorRef != actorRef
    ensures KeyOfActor(Put(roles, key, role), actorRef) == KeyOfActor(roles, actorRef)
  {
    if roles != [] {
      PutActor(roles[1..], key, role, actorRef);
    }
  }

  /** A key the map already answers for keeps its answer when a member is added. */
  lemma MemberKeepsRole<M>(c: Chat<M>, principal: string, index: nat, key: string)
    requires RoleAt(c.roles, key).Some?
    ensures RoleAt(AddMember(c, principal, index).roles, key) == RoleAt(c.roles, key)
  {
    PutRoleAt(c.roles, RoleKeyFor(c.roles, principal, index), Role(principal, Decimal(index + 1), true), key);
  }

  lemma {:induction false} MembersKeepRole<M>(c: Chat<M>, audience: seq<string>, k: nat, key: string)
    requires k <= |audience| && RoleAt(c.roles, key).Some?
    ensures RoleAt(AddMembers(c, audience, k).0.roles, key) == RoleAt(c.roles, key)
  {
    if k > 0 {
      MembersKeepRole(c, audience, k - 1, key);
      MemberKeepsRole(AddMembers(c, audience, k - 1).0, audience[k-1], k - 1, key);
    }
  }

  /** Members already added are never mistaken for one still to come. */
  lemma {:induction false} MembersKeepActor<M>(c: Chat<M>, audience: seq<string>, k: nat, principal: string)
    requires k <= |audience| && Distinct(c.roles)
    requires principal !in audience[..k]
    ensures KeyOfActor(AddMembers(c, audience, k).0.roles, principal) == KeyOfActor(c.roles, principal)
  {
    if k > 0 {
      assert forall i :: 0 <= i < k - 1 ==> audience[..k-1][i] == audience[..k][i];
      assert audience[..k][k-1] == audience[k-1];
      MembersKeepActor(c, audience, k - 1, principal);
      var d := AddMembers(c, audience, k - 1).0;
      var key := RoleKeyFor(d.roles, audience[k-1], k - 1);
      if RoleAt(d.roles, key).None? {
        PutActor(d.roles, key, Role(audience[k-1], Decimal(k), true), principal);
      }
    }
  }

  /** Members already added never take the index-based key of one still to come. */
  lemma {:induction false} MembersKeepHumanKey<M>(c: Chat<M>, audience: seq<string>, k: nat, index: nat)
    requires k <= |audience| && k <= index && Distinct(c.roles)
    ensures Distinct(AddMembers(c, audience, k).0.roles)
    ensures RoleAt(AddMembers(c, audience, k).0.roles, HumanKey(index)) == RoleAt(c.roles, HumanKey(index))
  {
    if k > 0 {
      MembersKeepHumanKey(c, audience, k - 1, index);
      var d := AddMembers(c, audience, k - 1).0;
      var key, role := RoleKeyFor(d.roles, audience[k-1], k - 1), Role(audience[k-1], Decimal(k), true);
      ActorKeyIs(d.roles, audience[k-1]);
      PutDistinct(d.roles, key, role);
      PutRoleAt(d.roles, key, role, HumanKey(index));
      if HumanKey(k - 1) == HumanKey(index) {
        HumanKeysDiffer(k - 1, index);
      }
    }
  }

  /** The key and the role of a member depend on the roles before the room alone. */
  lemma {:induction false} MembersNamed<M>(c: Chat<M>, audience: seq<string>, k: nat, i: nat)
    requires i < k <= |audience| && Distinct(c.roles)
    requires forall a, b :: 0 <= a < b < |audience| ==> audience[a] != audience[b]
    ensures var (d, keys) := AddMembers(c, audience, k);
            var key := RoleKeyFor(c.roles, audience[i], i);
            && audience[i] in keys && keys[audience[i]] == key
            && RoleAt(d.roles, key) == Some(NamedRole(c.roles, audience[i], i))
  {
    var d := AddMembers(c, audience, k - 1).0;
    var key := RoleKeyFor(c.roles, audience[i], i);
    if i < k - 1 {
      MembersNamed(c, audience, k - 1, i);
      MemberKeepsRole(d, audience[k-1], k - 1, key);
    } else {
      MembersKeepActor(c, audience, i, audience[i]);
      MembersKeepHumanKey(c, audience, i, i);
      ActorKeyIs(c.roles, audience[i]);
      if RoleAt(c.roles, key).Some? {
        MembersKeepRole(c, audience, i, key);
      }
      PutRoleAt(d.roles, key, Role(audience[i], Decimal(i + 1), true), key);
    }
  }

  lemma VexKeysDiffer(i: nat, j: nat)
    requires VexKey(i) == VexKey(j)
    ensures i == j
  {
    var p := |"family-vex-"|;
    assert VexKey(i)[p..] == Decimal(i + 1) && VexKey(j)[p..] == Decimal(j + 1);
    DecimalRoundTrip(i + 1);
    DecimalRoundTrip(j + 1);
  }

  function CompanionRole(room: Room): Role { Role(room.companionRef, "V", true) }

  lemma {:induction false} MembersKeepDistinct<M>(c: Chat<M>, audience: seq<string>, k: nat)
    requires k <= |audience| && Distinct(c.roles)
    ensures Distinct(AddMembers(c, audience, k).0.roles)
  {
    MembersKeepHumanKey(c, audience, k, k);
  }

  lemma {:induction false} RoomsKeepDistinct<M>(c: Chat<M>, rooms: seq<Room>, k: nat)
    requires k <= |rooms| && Distinct(c.roles)
    ensures Distinct(AddRooms(c, rooms, k).roles)
  {
    if k > 0 {
      RoomsKeepDistinct(c, rooms, k - 1);
      var d := AddRooms(c, rooms, k - 1);
      MembersKeepDistinct(d, rooms[k-1].audience, |rooms[k-1].audience|);
      PutDistinct(AddMembers(d, rooms[k-1].audience, |rooms[k-1].audience|).0.roles, VexKey(k - 1),
                  CompanionRole(rooms[k-1]));
    }
  }

  /** A room leaves every role that is there, except that it takes its companion's key. */
  lemma RoomKeepsRole<M>(c: Chat<M>, room: Room, roomIndex: nat, key: string)
    requires RoleAt(c.roles, key).Some? || key == VexKey(roomIndex)
    ensures RoleAt(AddRoom(c, room, roomIndex).roles, key) ==
              if key == VexKey(roomIndex) then Some(CompanionRole(room)) else RoleAt(c.roles, key)
  {
    var d := AddMembers(c, room.audience, |room.audience|).0;
    PutRoleAt(d.roles, VexKey(roomIndex), CompanionRole(room), key);
    if RoleAt(c.roles, key).Some? {
      MembersKeepRole(c, room.audience, |room.audience|, key);
    }
  }

  /** What becomes of a role while rooms `m` up to `n` are installed. */
  function LaterRole(rooms: seq<Room>, m: nat, n: nat, key: string, role: Role): Role
    requires m <= n <= |rooms|
  {
    if m == n then role
    else if key == VexKey(n - 1) then CompanionRole(rooms[n-1])
    else LaterRole(rooms, m, n - 1, key, role)
  }

  lemma {:induction false} LaterRooms<M>(c: Chat<M>, rooms: seq<Room>, m: nat, n: nat, key: string)
    requires m <= n <= |rooms| && RoleAt(AddRooms(c, rooms, m).roles, key).Some?
    ensures RoleAt(AddRooms(c, rooms, n).roles, key) ==
              Some(LaterRole(rooms, m, n, key, RoleAt(AddRooms(c, rooms, m).roles, key).value))
  {
    if m < n {
      LaterRooms(c, rooms, m, n - 1, key);
      RoomKeepsRole(AddRooms(c, rooms, n - 1), rooms[n-1], n - 1, key);
    }
  }

  /** The later rooms leave a role alone, unless its key is the companion key of one of them. */
  lemma {:induction false} LaterRoleIs(rooms: seq<Room>, m: nat, n: nat, key: string, role: Role)
    requires m <= n <= |rooms|
    ensures forall j | m <= j < n && key == VexKey(j) :: LaterRole(rooms, m, n, key, role) == CompanionRole(rooms[j])
    ensures (forall j | m <= j < n :: key != VexKey(j)) ==> LaterRole(rooms, m, n, key, role) == role
  {
    if m < n {
      LaterRoleIs(rooms, m, n - 1, key, role);
      if key == VexKey(n - 1) {
        forall j | m <= j < n && key == VexKey(j) ensures j == n - 1 {
          VexKeysDiffer(j, n - 1);
        }
      }
    }
  }

  lemma RoomAddsChannel<M>(c: Chat<M>, room: Room, k: nat)
    ensures AddRoom(c, room, k).channels ==
              c.channels + [RoomChannel(room, k, AddMembers(c, room.audience, |room.audience|).1)]
  {
    MembersKeepChannels(c, room.audience, |room.audience|);
  }

  lemma {:induction false} ChannelCount<M>(c: Chat<M>, rooms: seq<Room>, n: nat)
    requires n <= |rooms|
    ensures |AddRooms(c, rooms, n).channels| == |c.channels| + n
  {
    if n > 0 {
      ChannelCount(c, rooms, n - 1);
      RoomAddsChannel(AddRooms(c, rooms, n - 1), rooms[n-1], n - 1);
    }
  }

  /** The channels of a snapshot follow those of the base, one for each room. */
  lemma {:induction false} RoomChannels<M>(c: Chat<M>, rooms: seq<Room>, n: nat, k: nat)
    requires k < n <= |rooms|
    ensures |AddRooms(c, rooms, n).channels| == |c.channels| + n
    ensures AddRooms(c, rooms, n).channels[|c.channels| + k] ==
              RoomChannel(rooms[k], k, AddMembers(AddRooms(c, rooms, k), rooms[k].audience, |rooms[k].audience|).1)
  {
    ChannelCount(c, rooms, n);
    ChannelCount(c, rooms, n - 1);
    RoomAddsChannel(AddRooms(c, rooms, n - 1), rooms[n-1], n - 1);
    if k < n - 1 {
      RoomChannels(c, rooms, n - 1, k);
    }
  }

  /** A member of room `k` has a role to be named by, where `roles` are those that the base and the rooms before
      have: the companion itself, a principal whose first role is not to be replaced by another companion's, or a
      newcomer whose index-based key is free. */
  predicate Nameable(roles: seq<Entry>, rooms: seq<Room>, k: nat, i: nat)
    requires k < |rooms| && i < |rooms[k].audience|
  {
    var principal := rooms[k].audience[i];
    || principal == rooms[k].companionRef
    || match KeyOfActor(roles, principal)
       case Some(key) => forall j | k <= j < |rooms| && key == VexKey(j) :: rooms[j].companionRef == principal
       case None => !HasKey(roles, HumanKey(i))
  }

  /** The role a member's own key names once its room is installed. */
  lemma RoomNames<M>(c: Chat<M>, room: Room, k: nat, i: nat)
    requires Distinct(c.roles) && i < |room.audience|
    requires forall a, b :: 0 <= a < b < |room.audience| ==> room.audience[a] != room.audience[b]
    ensures var key := RoleKeyFor(c.roles, room.audience[i], i);
            && RoomChannel(room, k, AddMembers(c, room.audience, |room.audience|).1).memberKeys[i] ==
                 (if room.audience[i] == room.companionRef then VexKey(k) else key)
            && RoleAt(AddRoom(c, room, k).roles, key) ==
                 Some(if key == VexKey(k) then CompanionRole(room) else NamedRole(c.roles, room.audience[i], i))
  {
    var d := AddMembers(c, room.audience, |room.audience|).0;
    MembersNamed(c, room.audience, |room.audience|, i);
    PutRoleAt(d.roles, VexKey(k), CompanionRole(room), RoleKeyFor(c.roles, room.audience[i], i));
  }

  /** Whether the role under a member's key is the member's own, before any companion takes the key. */
  lemma NamedOwn(roles: seq<Entry>, principal: string, i: nat)
    requires Distinct(roles)
    ensures NamedRole(roles, principal, i).actorRef == principal <==>
              KeyOfActor(roles, principal).Some? || !HasKey(roles, HumanKey(i))
  {
    var key := RoleKeyFor(roles, principal, i);
    ActorKeyIs(roles, principal);
    RoleAtIff(roles, HumanKey(i));
    if KeyOfActor(roles, principal).None? && RoleAt(roles, key).Some? {
      RoleMember(roles, key);
    }
  }

  lemma CompanionStays<M>(c: Chat<M>, rooms: seq<Room>, k: nat)
    requires k < |rooms|
    ensures RoleAt(AddRooms(c, rooms, |rooms|).roles, VexKey(k)) == Some(CompanionRole(rooms[k]))
  {
    RoomKeepsRole(AddRooms(c, rooms, k), rooms[k], k, VexKey(k));
    LaterRooms(c, rooms, k + 1, |rooms|, VexKey(k));
    LaterRoleIs(rooms, k + 1, |rooms|, VexKey(k), CompanionRole(rooms[k]));
    forall j | k + 1 <= j < |rooms| ensures VexKey(k) != VexKey(j) {
      if VexKey(k) == VexKey(j) {
        VexKeysDiffer(k, j);
      }
    }
  }

  /** The role a member's own key names in the end. */
  function FinalRole(roles: seq<Entry>, rooms: seq<Room>, k: nat, i: nat): Role
    requires k < |rooms| && i < |rooms[k].audience|
  {
    var key := RoleKeyFor(roles, rooms[k].audience[i], i);
    LaterRole(rooms, k, |rooms|, key, NamedRole(roles, rooms[k].audience[i], i))
  }

  lemma {:induction false} LaterRoleFrom(rooms: seq<Room>, k: nat, n: nat, key: string, role: Role)
    requires k < n <= |rooms|
    ensures LaterRole(rooms, k, n, key, role) ==
              LaterRole(rooms, k + 1, n, key, if key == VexKey(k) then CompanionRole(rooms[k]) else role)
  {
    if k + 1 < n {
      LaterRoleFrom(rooms, k, n - 1, key, role);
    }
  }

  lemma FinalRoleIs(roles: seq<Entry>, rooms: seq<Room>, k: nat, i: nat)
    requires k < |rooms| && i < |rooms[k].audience| && Distinct(roles)
    requires rooms[k].audience[i] != rooms[k].companionRef
    ensures FinalRole(roles, rooms, k, i).actorRef == rooms[k].audience[i] <==> Nameable(roles, rooms, k, i)
  {
    var principal := rooms[k].audience[i];
    var key := RoleKeyFor(roles, principal, i);
    NamedOwn(roles, principal, i);
    LaterRoleIs(rooms, k, |rooms|, key, NamedRole(roles, principal, i));
    forall j | 0 <= j < |rooms| ensures HumanKey(i) != VexKey(j) {
      HumanNotVex(i, j);
    }
    if j :| k <= j < |rooms| && key == VexKey(j) {
      assert FinalRole(roles, rooms, k, i) == CompanionRole(rooms[j]);
      forall l | k <= l < |rooms| && key == VexKey(l) ensures l == j {
        VexKeysDiffer(l, j);
      }
    }
  }

  /** The key under which a member stands in the channel of its room: the room's own companion key, the key of the
      first role that acts for it, or the one of its place in the audience. */
  ghost predicate KeyOfMember(key: string, roles: seq<Entry>, room: Room, k: nat, i: nat)
    requires i < |room.audience|
  {
    var known := KeyOfActor(roles, room.audience[i]);
    key == if room.audience[i] == room.companionRef then "family-vex-" + Decimal(k + 1)
           else if known.Some? then known.value
           else "family-human-" + Decimal(i + 1)
  }

  /** Whom the keys of an installed snapshot name, exactly, for any number of rooms: the last key of a room's channel
      names its companion, and a member's key names that member if and only if the member is nameable after the base
      and the rooms before. */
  lemma RoomKeysExactly<M>(base: Chat<M>, rooms: seq<Room>, k: nat, i: nat)
    requires Removed(base) == base && Distinct(base.roles) && k < |rooms| && i < |rooms[k].audience|
    requires forall a, b :: 0 <= a < b < |rooms[k].audience| ==> rooms[k].audience[a] != rooms[k].audience[b]
    ensures var c := Installed(base, rooms);
            && |c.channels| == |base.channels| + |rooms|
            && var channel := c.channels[|base.channels| + k];
            && var memberKeys := channel.memberKeys;
            && |memberKeys| == |rooms[k].audience| + 1
            && channel.projected
            && channel.scope == Scope("project.vexlife.root-hub", "thread.root-hub.welcome", rooms[k].channelRef)
            && channel.roleKey == memberKeys[|rooms[k].audience|] == "family-vex-" + Decimal(k + 1)
            && RoleAt(c.roles, channel.roleKey) == Some(Role(rooms[k].companionRef, "V", true))
            && RoleAt(c.roles, memberKeys[i]).Some?
            && KeyOfMember(memberKeys[i], AddRooms(base, rooms, k).roles, rooms[k], k, i)
            && (RoleAt(c.roles, memberKeys[i]).value.actorRef == rooms[k].audience[i] <==>
                  Nameable(AddRooms(base, rooms, k).roles, rooms, k, i))
  {
    var d := AddRooms(base, rooms, k);
    var key := RoleKeyFor(d.roles, rooms[k].audience[i], i);
    RoomChannels(base, rooms, |rooms|, k);
    CompanionStays(base, rooms, k);
    RoomsKeepDistinct(base, rooms, k);
    RoomNames(d, rooms[k], k, i);
    LaterRooms(base, rooms, k + 1, |rooms|, key);
    LaterRoleFrom(rooms, k, |rooms|, key, NamedRole(d.roles, rooms[k].audience[i], i));
    if rooms[k].audience[i] != rooms[k].companionRef {
      FinalRoleIs(d.roles, rooms, k, i);
    }
  }

  /** The same for a snapshot of one room, in terms of the base alone. */
  lemma SingleRoomKeysExactly<M>(base: Chat<M>, room: Room, i: nat)
    requires Removed(base) == base && Distinct(base.roles) && i < |room.audience|
    requires forall a, b :: 0 <= a < b < |room.audience| ==> room.audience[a] != room.audience[b]
    ensures var c := Installed(base, [room]);
            && |c.channels| == |base.channels| + 1
            && var channel := c.channels[|base.channels|];
            && var memberKeys := channel.memberKeys;
            && |memberKeys| == |room.audience| + 1
            && channel.projected && channel.scope.channelRef == room.channelRef
            && channel.roleKey == memberKeys[|room.audience|] == "family-vex-" + Decimal(1)
            && RoleAt(c.roles, memberKeys[|room.audience|]) == Some(Role(room.companionRef, "V", true))
            && KeyOfMember(memberKeys[i], base.roles, room, 0, i)
            && RoleAt(c.roles, memberKeys[i]).Some?
            && (RoleAt(c.roles, memberKeys[i]).value.actorRef == room.audience[i] <==>
                  || room.audience[i] == room.companionRef
                  || match KeyOfActor(base.roles, room.audience[i])
                     case Some(key) => key != "family-vex-" + Decimal(1)
                     case None => !HasKey(base.roles, "family-human-" + Decimal(i + 1)))
  {
    RoomKeysExactly(base, [room], 0, i);
    assert AddRooms(base, [room], 0) == base;
    assert [room][0] == room;
  }

  lemma {:induction false} MembersKeepChannels<M>(c: Chat<M>, audience: seq<string>, k: nat)
    requires k <= |audience|
    ensures var d := AddMembers(c, audience, k).0; d.channels == c.channels && d.messages == c.messages
  {
    if k > 0 {
      MembersKeepChannels(c, audience, k - 1);
    }
  }

  /** Across rooms the index-based keys coincide: with two rooms of one new member each, the second room's
      member key names the member of the first. */
  lemma TwoRoomsMisname<M>(a: string, b: string, x: string, y: string, p: string, q: string)
    requires b !in {a, x, y}
    ensures var base: Chat<M> := Chat([], [], map[], {});
            var rooms := [Room([a], x, p), Room([b], y, q)];
            var c := Installed(base, rooms);
            && NoCollision(base, rooms)
            && |c.channels| == 2
            && |c.channels[1].memberKeys| == 2
            && RoleAt(c.roles, c.channels[1].memberKeys[0]) == Some(Role(a, Decimal(1), true))
  {
    var base: Chat<M> := Chat([], [], map[], {});
    var rooms := [Room([a], x, p), Room([b], y, q)];
    assert Removed(base) == base by { assert base.messages - ProjectedKeys(base.channels) == base.messages; }
    var one := AddRoom(base, rooms[0], 0);
    assert AddRooms(base, rooms, 1) == one by { assert AddRooms(base, rooms, 0) == base; }
    FirstRoom<M>(a, x, p);
    SecondRoom(one, b, y, q, a);
  }

  lemma FirstRoom<M>(a: string, x: string, p: string)
    ensures var one := AddRoom<M>(Chat([], [], map[], {}), Room([a], x, p), 0);
            && one.roles == [Entry(HumanKey(0), Role(a, Decimal(1), true)), Entry(VexKey(0), Role(x, "V", true))]
            && |one.channels| == 1
  {
    var base: Chat<M> := Chat([], [], map[], {});
    var room := Room([a], x, p);
    var d, keys := AddMembers(base, [a], 1).0, AddMembers(base, [a], 1).1;
    assert AddMembers(base, [a], 0) == (base, map[]);
    assert d == AddMember(base, a, 0);
    assert d.roles == [Entry(HumanKey(0), Role(a, Decimal(1), true))];
    HumanNotVex(0, 0);
    assert d.roles[1..] == [];
    var vex := Role(x, "V", true);
    assert Put([], VexKey(0), vex) == [Entry(VexKey(0), vex)];
    assert Put(d.roles, VexKey(0), vex) == [d.roles[0]] + Put([], VexKey(0), vex);
  }

  lemma SecondRoom<M>(one: Chat<M>, b: string, y: string, q: string, a: string)
    requires |one.roles| == 2 && |one.channels| == 1
    requires one.roles[0] == Entry(HumanKey(0), Role(a, Decimal(1), true))
    requires one.roles[1].key == VexKey(0)
    requires a != b && one.roles[1].role.actorRef != b && b != y
    ensures var c := AddRoom(one, Room([b], y, q), 1);
            && |c.channels| == 2 && |c.channels[1].memberKeys| == 2
            && RoleAt(c.roles, c.channels[1].memberKeys[0]) == Some(Role(a, Decimal(1), true))
  {
    assert AddMembers(one, [b], 0) == (one, map[]);
    assert one.roles[1..] == [one.roles[1]] && one.roles[1..][1..] == [];
    assert KeyOfActor(one.roles[1..], b) == None;
    assert KeyOfActor(one.roles, b) == None;
    assert AddMembers(one, [b], 1) == (one, map[b := HumanKey(0)]);
    HumanNotVex(0, 1);
    PutRoleAt(one.roles, VexKey(1), Role(y, "V", true), HumanKey(0));
  }

  // ----- the shared state and the routines that edit it -----

  /** Taking out works from the end; this is `Unprojected` from the front. */
  lemma {:induction false} UnprojectedCons(channel: Channel, rest: seq<Channel>)
    ensures Unprojected([channel] + rest) == (if channel.projected then [] else [channel]) + Unprojected(rest)
  {
    var all := [channel] + rest;
    if rest == [] {
      assert all[..0] == [];
    } else {
      var init := rest[..|rest|-1];
      UnprojectedCons(channel, init);
      assert all[..|all|-1] == [channel] + init;
    }
  }

  lemma ProjectedCons(channel: Channel, rest: seq<Channel>)
    ensures ProjectedKeys([channel] + rest) ==
              (if channel.projected then {ConversationKey(channel.scope)} else {}) + ProjectedKeys(rest)
  {
    var all := [channel] + rest;
    assert forall i :: 0 <= i < |rest| ==> all[i+1] == rest[i];
    forall k | k in ProjectedKeys(rest) ensures k in ProjectedKeys(all) {
      var i :| 0 <= i < |rest| && rest[i].projected && ConversationKey(rest[i].scope) == k;
      assert all[i+1] == rest[i];
    }
    assert channel.projected ==> ConversationKey(all[0].scope) in ProjectedKeys(all);
  }

  lemma RoomListed<M>(c: Chat<M>, room: Room, k: nat)
    ensures var d, key := AddRoom(c, room, k), ConversationKey(RoomScope(room));
            ProjectedKeys(d.channels) == ProjectedKeys(c.channels) + {key} && d.messages == c.messages[key := []]
  {
    RoomAddsChannel(c, room, k);
    MembersKeepChannels(c, room.audience, |room.audience|);
    ProjectedSnoc(c.channels, RoomChannel(room, k, AddMembers(c, room.audience, |room.audience|).1));
  }

  /** The message lists of a snapshot are those of its rooms, and all of them start empty. */
  lemma {:induction false} RoomsListed<M>(c: Chat<M>, rooms: seq<Room>, k: nat)
    requires k <= |rooms| && ProjectedKeys(c.channels) == {}
    ensures ProjectedKeys(AddRooms(c, rooms, k).channels) == RoomKeys(rooms, k)
    ensures RoomKeys(rooms, k) <= AddRooms(c, rooms, k).messages.Keys
    ensures forall key | key in RoomKeys(rooms, k) :: AddRooms(c, rooms, k).messages[key] == []
  {
    if k > 0 {
      RoomsListed(c, rooms, k - 1);
      RoomListed(AddRooms(c, rooms, k - 1), rooms[k-1], k - 1);
      RoomKeysGrow(rooms, k - 1, ConversationKey(RoomScope(rooms[k-1])));
    }
  }

  /** After a refresh every room's list holds what was read for it, or nothing. */
  lemma RoomsRead<M>(c: Chat<M>, rooms: seq<Room>, bodies: map<string, seq<M>>, key: string)
    requires key in RoomKeys(rooms, |rooms|)
    ensures var t := Refreshed(c, Fetched(rooms, bodies));
            key in t.messages && t.messages[key] == if key in bodies then bodies[key] else []
  {
    NoneProjected(c.channels);
    RoomsListed(Removed(c), rooms, |rooms|);
  }

  lemma ProjectedSnoc(channels: seq<Channel>, channel: Channel)
    ensures ProjectedKeys(channels + [channel]) ==
              ProjectedKeys(channels) + if channel.projected then {ConversationKey(channel.scope)} else {}
  {
    var longer := channels + [channel];
    assert longer[|channels|] == channel;
    forall k | k in ProjectedKeys(channels) ensures k in ProjectedKeys(longer) {
      var i :| 0 <= i < |channels| && channels[i].projected && ConversationKey(channels[i].scope) == k;
      assert longer[i] == channels[i];
    }
  }

  /** One step of taking out, from the channels before the step to those after it. */
  lemma SpliceStep<M>(was: seq<Channel>, index: nat, lists: map<string, seq<M>>, key: string)
    requires index < |was| && key == ConversationKey(was[index].scope)
    ensures var now := was[..index+1] + Unprojected(was[index+1..]);
            var left := lists - ProjectedKeys(was[index+1..]);
            && now[index] == was[index]
            && was[..index] + Unprojected(was[index..]) ==
                 (if was[index].projected then now[..index] + now[index+1..] else now)
            && lists - ProjectedKeys(was[index..]) == (if was[index].projected then left - {key} else left)
  {
    var rest := was[index+1..];
    assert was[index..] == [was[index]] + rest;
    assert was[..index+1] == was[..index] + [was[index]];
    UnprojectedCons(was[index], rest);
    ProjectedCons(was[index], rest);
    assert ProjectedKeys(was[index..]) == (if was[index].projected then {key} else {}) + ProjectedKeys(rest);
  }

  lemma RoomKeysGrow(rooms: seq<Room>, i: nat, key: string)
    requires i < |rooms| && key == ConversationKey(RoomScope(rooms[i]))
    ensures RoomKeys(rooms, i + 1) == RoomKeys(rooms, i) + {key}
    ensures key in RoomKeys(rooms, |rooms|)
  {
  }

  lemma FillOne<M>(lists: map<string, seq<M>>, keys: set<string>, key: string, bodies: map<string, seq<M>>)
    requires key in lists
    ensures var filled := FilledIn(lists, keys, bodies);
            FilledIn(lists, keys + {key}, bodies) == if key in bodies then filled[key := bodies[key]] else filled
  {
  }

  class Projection<M> {
    var roles: seq<Entry>
    var channels: seq<Channel>
    var messages: map<string, seq<M>>
    var injectedRoleKeys: set<string>

    constructor (base: Chat<M>)
      ensures View() == base.(injected := {})
    {
      roles, channels, messages, injectedRoleKeys := base.roles, base.channels, base.messages, {};
    }

    ghost function View(): Chat<M>
      reads this
    {
      Chat(roles, channels, messages, injectedRoleKeys)
    }

    /** Splices the projected channels out from the end, with their message lists. */
    method SpliceChannels()
      modifies `channels, `messages
      ensures channels == Unprojected(old(channels))
      ensures messages == old(messages) - ProjectedKeys(old(channels))
    {
      ghost var was, lists := channels, messages;
      var index := |channels|;
      while index > 0
        invariant 0 <= index <= |was|
        invariant channels == was[..index] + Unprojected(was[index..])
        invariant messages == lists - ProjectedKeys(was[index..])
      {
        index := index - 1;
        SpliceStep(was, index, lists, ConversationKey(was[index].scope));
        if channels[index].projected {
          messages := messages - {ConversationKey(channels[index].scope)};
          channels := channels[..index] + channels[index+1..];
        }
      }
      assert was[0..] == was;
    }

    /** Deletes the injected roles in whatever order the set yields them. */
    method DeleteRoles()
      modifies `roles
      ensures roles == DropKeys(old(roles), injectedRoleKeys)
    {
      var keys := injectedRoleKeys;
      DropAbsent(roles, {});
      assert injectedRoleKeys - keys == {};
      while keys != {}
        invariant keys <= injectedRoleKeys
        invariant roles == DropKeys(old(roles), injectedRoleKeys - keys)
        decreases |keys|
      {
        var key :| key in keys;
        DropTwice(old(roles), injectedRoleKeys - keys, {key});
        assert injectedRoleKeys - (keys - {key}) == (injectedRoleKeys - keys) + {key};
        roles := DropKeys(roles, {key});
        keys := keys - {key};
      }
      assert injectedRoleKeys - {} == injectedRoleKeys;
    }

    method RemoveInjectedProjection()
      modifies this
      ensures View() == Removed(old(View()))
    {
      SpliceChannels();
      DeleteRoles();
      injectedRoleKeys := {};
    }

    /** One room: its members, its companion, its channel and its empty message list. */
    method InstallRoom(room: Room, roomIndex: nat)
      modifies this
      ensures View() == AddRoom(old(View()), room, roomIndex)
    {
      ghost var before := View();
      var roleByRef: map<string, string> := map[];
      for index := 0 to |room.audience|
        invariant (View(), roleByRef) == AddMembers(before, room.audience, index)
      {
        var principal := room.audience[index];
        var key := RoleKeyFor(roles, principal, index);
        if RoleAt(roles, key).None? {
          roles := Put(roles, key, Role(principal, Decimal(index + 1), true));
          injectedRoleKeys := injectedRoleKeys + {key};
        }
        roleByRef := roleByRef[principal := key];
      }
      var vexKey := VexKey(roomIndex);
      roles := Put(roles, vexKey, Role(room.companionRef, "V", true));
      injectedRoleKeys := injectedRoleKeys + {vexKey};
      roleByRef := roleByRef[room.companionRef := vexKey];
      var channel := Channel(RoomScope(room), vexKey, MemberKeys(roleByRef, room.audience) + [vexKey], true);
      channels := channels + [channel];
      messages := messages[ConversationKey(channel.scope) := []];
    }

    method InstallProjection(rooms: seq<Room>)
      modifies this
      ensures View() == Installed(old(View()), rooms)
    {
      RemoveInjectedProjection();
      ghost var base := View();
      for roomIndex := 0 to |rooms|
        invariant View() == AddRooms(base, rooms, roomIndex)
      {
        InstallRoom(rooms[roomIndex], roomIndex);
      }
    }

    /** Replaces the list of every room that was read by what was read. */
    method FillLists(rooms: seq<Room>, bodies: map<string, seq<M>>)
      requires RoomKeys(rooms, |rooms|) <= messages.Keys
      modifies `messages
      ensures messages == FilledIn(old(messages), RoomKeys(rooms, |rooms|), bodies)
    {
      for i := 0 to |rooms|
        invariant messages == FilledIn(old(messages), RoomKeys(rooms, i), bodies)
      {
        var key := ConversationKey(RoomScope(rooms[i]));
        RoomKeysGrow(rooms, i, key);
        FillOne(old(messages), RoomKeys(rooms, i), key, bodies);
        if key in bodies {
          messages := messages[key := bodies[key]];
        }
      }
    }

    /** The messages of one room arrive; true when its list is gone, so that its refresh ends held. */
    method FillRoom(key: string, body: seq<M>) returns (held: bool)
      modifies this
      ensures View() == FillOrHold(old(View()), key, body)
      ensures held <==> key !in old(messages)
    {
      held := key !in messages;
      if held {
        RemoveInjectedProjection();
      } else {
        messages := messages[key := body];
      }
    }

    /** One refresh that no other overlaps: a held snapshot only takes the projection out; a fetched one replaces it,
        then every room's list by what was read for it. */
    method Refresh(r: Refresh<M>)
      modifies this
      ensures View() == Refreshed(old(View()), r)
    {
      match r
      case Held =>
        RemoveInjectedProjection();
      case Fetched(rooms, bodies) =>
        NoneProjected(channels);
        RoomsListed(Removed(View()), rooms, |rooms|);
        InstallProjection(rooms);
        FillLists(rooms, bodies);
    }
  }
}
