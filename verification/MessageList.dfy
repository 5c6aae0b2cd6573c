/** The message list of one companion channel as values: the references messages carry, the conversation head, and
    what a turn does to both.

    A message is sent under a reference computed from its channel and a sequence number, which can repeat. A message
    is taken back by removing the first one that carries its reference, once or, when something throws after that,
    twice. Both are modelled as they are; messages themselves are of any type. */
module MessageList {
  import opened Common

  // ----- answers -----

  /** What the server answers about a turn; absent texts are empty. */
  datatype Body = Body(state: string, truthClass: string, content: string, durable: bool,
                       requestMessageRef: Option<string>, humanSequence: Option<int>, humanHead: Option<string>,
                       responseMessageRef: Option<string>, companionSequence: Option<int>,
                       canonicalHead: Option<string>, failureCode: string, message: string)

  /** Where the browser itself throws while it takes up an answer: nowhere, before the conversation head is bound,
      before a reply is in the list, or after the last change to the list. */
  datatype Fault = NONE | EARLY | BOUND | LATE

  /** The request, the stream or the reveal throws; or an answer arrives, with the HTTP verdict. */
  datatype Turn = Thrown | Answered(ok: bool, body: Body, fault: Fault)

  predicate Confirmation(t: Turn) {
    t.Answered? && t.ok && t.body.state == "CONFIRMATION_REQUIRED"
    && t.body.truthClass == "CURRENT_SEMANTIC_RELAY_ATTENTION"
  }

  predicate Completed(t: Turn) {
    t.Answered? && t.ok && t.body.state == "TURN_COMPLETED" && t.body.truthClass == "CURRENT_LOCAL_MODEL"
    && t.body.content != ""
  }

  /** How an answer is taken up; the test for a confirmation comes first. */
  datatype Kind = TO_CONFIRM | COMPLETED | FAILED

  function KindOf(t: Turn): Kind
    requires t.Answered?
  {
    if Confirmation(t) then TO_CONFIRM else if Completed(t) then COMPLETED else FAILED
  }

  /** A turn, with its answer classified. */
  datatype Taken = Broken | Taken(kind: Kind, body: Body, fault: Fault)

  function Classify(t: Turn): Taken { if t.Thrown? then Broken else Taken(KindOf(t), t.body, t.fault) }

  predicate Durable(b: Body) { b.durable && b.requestMessageRef.Some? }

  /** The sent message takes the reference the server gives it. */
  predicate Marks(t: Taken) {
    t.Taken? && t.body.requestMessageRef.Some? && (t.kind == COMPLETED || (t.kind == FAILED && t.body.durable))
  }

  predicate Replies(t: Taken) { t.Taken? && t.kind == COMPLETED && (t.fault == NONE || t.fault == LATE) }

  /** How often the taking up of a turn removes a message by the reference of the sent one; a storage that refuses
      the draft is one more thing that throws. */
  function Removals(t: Taken, refusing: bool): (n: nat)
    ensures n <= 2 && (Replies(t) || Marks(t) ==> n <= 1)
  {
    match t
    case Broken => 1
    case Taken(TO_CONFIRM, _, fault) => if refusing || fault != NONE then 2 else 1
    case Taken(COMPLETED, _, fault) => if fault == NONE then 0 else 1
    case Taken(FAILED, body, fault) =>
      if Durable(body) then if fault == NONE then 0 else 1
      else if refusing || fault != NONE then 2 else 1
  }

  /** The text of the sent message is put back into the draft. */
  predicate Restored(t: Taken) { Removals(t, false) > 0 }

  lemma RestoredRemoves(t: Taken, refusing: bool)
    ensures Restored(t) <==> Removals(t, refusing) > 0
  {
  }

  // ----- references and the conversation head -----

  datatype Currentness = CURRENT | EMPTY | ABSENT | UNKNOWN

  datatype Head = Head(currentness: Currentness, sequence: Option<int>)

  predicate Safe(n: int) { -MAX_SAFE_INTEGER <= n <= MAX_SAFE_INTEGER }

  /** The number the next message is sent under. */
  function NextSequence(head: Head, length: nat): int {
    if head.currentness == CURRENT && head.sequence.Some? && Safe(head.sequence.value) then head.sequence.value + 1
    else if head.currentness == EMPTY || head.currentness == ABSENT then 0
    else length
  }

  function LocalPrefix(channelRef: string): string { "message.demo." + channelRef + "." }

  function LocalRef(channelRef: string, sequence: int): string { LocalPrefix(channelRef) + NumberText(sequence) }

  /** The head moves only to a complete identity. */
  function Bind(head: Head, sha: Option<string>, ref: Option<string>, sequence: Option<int>): Head {
    if sha.Some? && Hex64(sha.value) && ref.Some? && ref.value != "" && sequence.Some? && sequence.value >= 0
    then Head(CURRENT, sequence)
    else head
  }

  function HeadAfter(head: Head, t: Taken): Head {
    if t.Broken? || t.fault == EARLY then head
    else if t.kind == COMPLETED then
      Bind(head, t.body.canonicalHead, t.body.responseMessageRef, t.body.companionSequence)
    else if t.kind == FAILED && Durable(t.body) then
      Bind(head, t.body.canonicalHead, t.body.requestMessageRef, t.body.humanSequence)
    else head
  }

  // ----- removal by reference -----

  datatype Row<M> = Row(message: M, ref: string, sequence: int)

  /** Position of the first row with a reference, or -1. */
  function First<M>(rows: seq<Row<M>>, ref: string): (k: int)
    ensures -1 <= k < |rows|
  {
    if rows == [] then -1
    else if rows[0].ref == ref then 0
    else
      var k := First(rows[1..], ref);
      if k < 0 then -1 else k + 1
  }

  lemma {:induction false} FirstIs<M>(rows: seq<Row<M>>, ref: string)
    ensures var k := First(rows, ref);
            && (k >= 0 ==> rows[k].ref == ref)
            && forall i :: 0 <= i < (if k >= 0 then k else |rows|) ==> rows[i].ref != ref
  {
    if rows != [] && rows[0].ref != ref {
      FirstIs(rows[1..], ref);
      assert forall i :: 1 <= i < |rows| ==> rows[i] == rows[1..][i-1];
    }
  }

  function Without<T>(s: seq<T>, k: int): seq<T>
    requires -1 <= k < |s|
  {
    if k < 0 then s else s[..k] + s[k+1..]
  }

  function Drop<M>(rows: seq<Row<M>>, ref: string): seq<Row<M>> { Without(rows, First(rows, ref)) }

  function DropTimes<M>(rows: seq<Row<M>>, ref: string, n: nat): seq<Row<M>> {
    if n == 0 then rows else DropTimes(Drop(rows, ref), ref, n - 1)
  }

  /** How many rows carry a reference. */
  function Carriers<M>(rows: seq<Row<M>>, ref: string): nat {
    if rows == [] then 0 else (if rows[0].ref == ref then 1 else 0) + Carriers(rows[1..], ref)
  }

  lemma {:induction false} CarriersZero<M>(rows: seq<Row<M>>, ref: string)
    ensures Carriers(rows, ref) == 0 <==> forall row | row in rows :: row.ref != ref
    ensures Carriers(rows, ref) == 0 <==> First(rows, ref) == -1
  {
    if rows != [] {
      CarriersZero(rows[1..], ref);
      assert forall row :: row in rows <==> row == rows[0] || row in rows[1..];
    }
  }

  lemma {:induction false} CarriersAppend<M>(a: seq<Row<M>>, b: seq<Row<M>>, ref: string)
    ensures Carriers(a + b, ref) == Carriers(a, ref) + Carriers(b, ref)
  {
    if a == [] {
      assert a + b == b;
    } else {
      CarriersAppend(a[1..], b, ref);
      assert (a + b)[1..] == a[1..] + b;
    }
  }

  /** Removal takes the first carrier and nothing else. */
  lemma DropOne<M>(rows: seq<Row<M>>, ref: string)
    ensures Carriers(rows, ref) == 0 ==> Drop(rows, ref) == rows
    ensures Carriers(rows, ref) > 0 ==>
              |Drop(rows, ref)| == |rows| - 1 && Carriers(Drop(rows, ref), ref) == Carriers(rows, ref) - 1
    ensures forall row | row in Drop(rows, ref) :: row in rows
  {
    CarriersZero(rows, ref);
    var k := First(rows, ref);
    FirstIs(rows, ref);
    if k >= 0 {
      assert Carriers([rows[k]], ref) == 1;
      assert rows == rows[..k] + [rows[k]] + rows[k+1..];
      CarriersAppend(rows[..k] + [rows[k]], rows[k+1..], ref);
      CarriersAppend(rows[..k], [rows[k]], ref);
      CarriersAppend(rows[..k], rows[k+1..], ref);
    }
  }

  lemma FirstAppend<M>(a: seq<Row<M>>, b: seq<Row<M>>, ref: string)
    ensures First(a + b, ref) ==
              if First(a, ref) >= 0 then First(a, ref) else if First(b, ref) >= 0 then |a| + First(b, ref) else -1
  {
    var ab := a + b;
    FirstIs(a, ref);
    FirstIs(b, ref);
    FirstIs(ab, ref);
    assert forall l :: 0 <= l < |ab| ==> ab[l] == if l < |a| then a[l] else b[l - |a|];
    if First(a, ref) >= 0 {
      assert ab[First(a, ref)].ref == ref;
    } else if First(b, ref) >= 0 {
      assert ab[|a| + First(b, ref)].ref == ref;
    }
  }

  lemma WithoutAppend<T>(a: seq<T>, b: seq<T>, k: nat)
    ensures k < |a| ==> Without(a + b, k) == Without(a, k) + b
    ensures |a| <= k < |a| + |b| ==> Without(a + b, k) == a + Without(b, k - |a|)
  {
  }

  lemma DropAppend<M>(a: seq<Row<M>>, b: seq<Row<M>>, ref: string)
    ensures Drop(a + b, ref) == if Carriers(a, ref) > 0 then Drop(a, ref) + b else a + Drop(b, ref)
  {
    CarriersZero(a, ref);
    FirstAppend(a, b, ref);
    if First(a + b, ref) >= 0 {
      WithoutAppend(a, b, First(a + b, ref));
    }
  }

  lemma DropHead<M>(own: Row<M>, rest: seq<Row<M>>)
    ensures Drop([own] + rest, own.ref) == rest
  {
    assert ([own] + rest)[0] == own && First([own] + rest, own.ref) == 0;
  }

  lemma {:induction false} DropTimesKeeps<M>(rows: seq<Row<M>>, ref: string, n: nat)
    ensures n <= Carriers(rows, ref) ==> |DropTimes(rows, ref, n)| == |rows| - n
    ensures Carriers(rows, ref) == 0 ==> DropTimes(rows, ref, n) == rows
    ensures |DropTimes(rows, ref, n)| <= |rows|
    ensures forall row | row in DropTimes(rows, ref, n) :: row in rows
  {
    if n > 0 {
      DropOne(rows, ref);
      DropTimesKeeps(Drop(rows, ref), ref, n - 1);
    }
  }

  /** What `n` removals by the reference of a row leave: the first `n` earlier carriers go and the row stays when there
      are that many; otherwise all of them go, the row too, and what is left of `n` behind it. */
  function Leaves<M>(before: seq<Row<M>>, own: Row<M>, rest: seq<Row<M>>, n: nat): seq<Row<M>> {
    var c := Carriers(before, own.ref);
    if n <= c then DropTimes(before, own.ref, n) + [own] + rest
    else DropTimes(before, own.ref, c) + DropTimes(rest, own.ref, n - c - 1)
  }

  lemma {:induction false} DropPassed<M>(before: seq<Row<M>>, own: Row<M>, rest: seq<Row<M>>, n: nat)
    ensures DropTimes(before + [own] + rest, own.ref, n) == Leaves(before, own, rest, n)
    decreases n
  {
    if n > 0 {
      DropNext(before, own, rest);
      if Carriers(before, own.ref) > 0 {
        DropPassed(Drop(before, own.ref), own, rest, n - 1);
        LeavesNext(before, own, rest, n);
      } else {
        DropTimesApart(before, rest, own.ref, n - 1);
        DropTimesKeeps(before, own.ref, 0);
      }
    }
  }

  lemma LeavesNext<M>(before: seq<Row<M>>, own: Row<M>, rest: seq<Row<M>>, n: nat)
    requires n > 0 && Carriers(before, own.ref) > 0
    ensures Leaves(before, own, rest, n) == Leaves(Drop(before, own.ref), own, rest, n - 1)
  {
    DropOne(before, own.ref);
  }

  lemma DropNext<M>(before: seq<Row<M>>, own: Row<M>, rest: seq<Row<M>>)
    ensures Drop(before + [own] + rest, own.ref) ==
              if Carriers(before, own.ref) > 0 then Drop(before, own.ref) + [own] + rest else before + rest
  {
    var tail := [own] + rest;
    assert before + [own] + rest == before + tail;
    DropAppend(before, tail, own.ref);
    DropHead(own, rest);
    assert Drop(before, own.ref) + tail == Drop(before, own.ref) + [own] + rest;
  }

  lemma {:induction false} DropTimesApart<M>(a: seq<Row<M>>, b: seq<Row<M>>, ref: string, n: nat)
    requires Carriers(a, ref) == 0
    ensures DropTimes(a + b, ref, n) == a + DropTimes(b, ref, n)
    decreases n
  {
    if n > 0 {
      DropAppend(a, b, ref);
      DropTimesApart(a, Drop(b, ref), ref, n - 1);
    }
  }

  // ----- a turn -----

  function MarkedRow<M>(own: Row<M>, t: Taken): Row<M> {
    if Marks(t) then
      var n := t.body.humanSequence;
      Row(own.message, t.body.requestMessageRef.value, if n.Some? && Safe(n.value) then n.value else own.sequence)
    else own
  }

  /** The reply, created when `length` messages are in the list. */
  function ReplyRow<M>(message: M, body: Body, channelRef: string, length: nat): Row<M> {
    var n := body.companionSequence;
    Row(message,
        if body.responseMessageRef.Some? then body.responseMessageRef.value else LocalRef(channelRef, length),
        if n.Some? && Safe(n.value) then n.value else length)
  }

  function RepliesOf<M>(t: Taken, reply: Option<M>, channelRef: string, length: nat): seq<Row<M>>
    requires Replies(t) ==> reply.Some?
  {
    if Replies(t) then [ReplyRow(reply.value, t.body, channelRef, length)] else []
  }

  /** The list after a turn for the message at a place of it. */
  function TurnRows<M>(rows: seq<Row<M>>, at: nat, t: Taken, refusing: bool, reply: Option<M>, channelRef: string)
    : seq<Row<M>>
    requires at < |rows| && (Replies(t) ==> reply.Some?)
  {
    var own := MarkedRow(rows[at], t);
    DropTimes(rows[at := own] + RepliesOf(t, reply, channelRef, |rows|), own.ref, Removals(t, refusing))
  }

  /** What a turn does to the list, exactly. */
  lemma TurnExactly<M>(before: seq<Row<M>>, own: Row<M>, rest: seq<Row<M>>, t: Taken, refusing: bool,
                       reply: Option<M>, channelRef: string)
    requires Replies(t) ==> reply.Some?
    ensures var rows := before + [own] + rest;
            TurnRows(rows, |before|, t, refusing, reply, channelRef) ==
              Leaves(before, MarkedRow(own, t), rest + RepliesOf(t, reply, channelRef, |rows|), Removals(t, refusing))
  {
    var rows, mine := before + [own] + rest, MarkedRow(own, t);
    var replies := RepliesOf(t, reply, channelRef, |rows|);
    MarkAppend(before, own, rest, mine, replies);
    DropPassed(before, mine, rest + replies, Removals(t, refusing));
  }

  lemma NewestTurn<M>(before: seq<Row<M>>, own: Row<M>, t: Taken, refusing: bool, reply: Option<M>, channelRef: string)
    requires Replies(t) ==> reply.Some?
    ensures TurnRows(before + [own], |before|, t, refusing, reply, channelRef) ==
              Leaves(before, MarkedRow(own, t), RepliesOf(t, reply, channelRef, |before| + 1), Removals(t, refusing))
  {
    var replies := RepliesOf(t, reply, channelRef, |before| + 1);
    assert before + [own] + [] == before + [own] && [] + replies == replies;
    TurnExactly(before, own, [], t, refusing, reply, channelRef);
  }

  lemma MarkAppend<T>(before: seq<T>, own: T, rest: seq<T>, mine: T, replies: seq<T>)
    ensures var rows := before + [own] + rest;
            rows[|before|] == own && rows[|before| := mine] + replies == before + [mine] + (rest + replies)
  {
  }

  ghost predicate Mentions<M>(rows: seq<Row<M>>, message: M) {
    exists i :: 0 <= i < |rows| && rows[i].message == message
  }

  /** Taking back, exactly: a turn that puts the text back leaves every other message and takes its own one out if
      and only if no earlier message carries the reference the own one then has and, where the turn removes twice,
      no later one either. */
  lemma TakenBackExactly<M>(before: seq<Row<M>>, own: Row<M>, rest: seq<Row<M>>, t: Taken, refusing: bool,
                            reply: Option<M>, channelRef: string)
    requires Replies(t) ==> reply.Some? && reply.value != own.message
    requires !Mentions(before, own.message) && !Mentions(rest, own.message)
    requires Restored(t)
    ensures var rows := before + [own] + rest;
            var ref, replies := MarkedRow(own, t).ref, RepliesOf(t, reply, channelRef, |rows|);
            TurnRows(rows, |before|, t, refusing, reply, channelRef) == before + rest + replies <==>
              Carriers(before, ref) == 0 && (Removals(t, refusing) == 2 ==> Carriers(rest, ref) == 0)
  {
    var rows, mine := before + [own] + rest, MarkedRow(own, t);
    var replies := RepliesOf(t, reply, channelRef, |rows|);
    RestoredRemoves(t, refusing);
    TurnExactly(before, own, rest, t, refusing, reply, channelRef);
    assert before + rest + replies == before + (rest + replies);
    LeavesAllExactly(before, mine, rest + replies, Removals(t, refusing));
    CarriersAppend(rest, replies, mine.ref);
  }

  /** One or two removals leave everything but the row if and only if no earlier row carries its reference and, for
      two, no later one. */
  lemma LeavesAllExactly<M>(before: seq<Row<M>>, own: Row<M>, behind: seq<Row<M>>, n: nat)
    requires !Mentions(before, own.message) && !Mentions(behind, own.message) && 1 <= n <= 2
    ensures Leaves(before, own, behind, n) == before + behind <==>
              Carriers(before, own.ref) == 0 && (n == 2 ==> Carriers(behind, own.ref) == 0)
  {
    var c := Carriers(before, own.ref);
    if n <= c {
      var kept := DropTimes(before, own.ref, n);
      DropTimesKeeps(before, own.ref, n);
      assert Leaves(before, own, behind, n)[|kept|] == own;
      NotMentioned(before, behind, own.message, |kept|);
    } else {
      DropTimesKeeps(before, own.ref, c);
      DropTimesKeeps(behind, own.ref, n - c - 1);
      if c == 0 && n == 2 {
        DropOne(behind, own.ref);
        assert DropTimes(behind, own.ref, 1) == DropTimes(Drop(behind, own.ref), own.ref, 0);
      }
    }
  }

  lemma NotMentioned<M>(a: seq<Row<M>>, b: seq<Row<M>>, message: M, k: nat)
    requires !Mentions(a, message) && !Mentions(b, message)
    ensures k < |a + b| ==> (a + b)[k].message != message
  {
  }

  /** A message that was sent last, as sends are: nothing but the earlier carriers matters. */
  lemma NewestTakenBackExactly<M>(before: seq<Row<M>>, own: Row<M>, t: Taken, refusing: bool, reply: Option<M>,
                                  channelRef: string)
    requires Replies(t) ==> reply.Some? && reply.value != own.message
    requires !Mentions(before, own.message) && Restored(t)
    ensures var ref, replies := MarkedRow(own, t).ref, RepliesOf(t, reply, channelRef, |before| + 1);
            TurnRows(before + [own], |before|, t, refusing, reply, channelRef) == before + replies <==>
              forall row | row in before :: row.ref != ref
  {
    TakenBackExactly(before, own, [], t, refusing, reply, channelRef);
    assert before + [own] + [] == before + [own] && before + [] == before;
    CarriersZero(before, MarkedRow(own, t).ref);
  }

  /** The sent message stays in the list exactly when the removals are used up by earlier carriers of its reference. */
  lemma OwnStaysExactly<M>(before: seq<Row<M>>, own: Row<M>, rest: seq<Row<M>>, t: Taken, refusing: bool,
                           reply: Option<M>, channelRef: string)
    requires Replies(t) ==> reply.Some? && reply.value != own.message
    requires !Mentions(before, own.message) && !Mentions(rest, own.message)
    ensures Mentions(TurnRows(before + [own] + rest, |before|, t, refusing, reply, channelRef), own.message) <==>
              Removals(t, refusing) <= Carriers(before, MarkedRow(own, t).ref)
  {
    var replies := RepliesOf(t, reply, channelRef, |before + [own] + rest|);
    TurnExactly(before, own, rest, t, refusing, reply, channelRef);
    MentionsAppend(rest, replies, own.message);
    LeavesOwn(before, MarkedRow(own, t), rest + replies, Removals(t, refusing));
  }

  lemma MentionsAppend<M>(a: seq<Row<M>>, b: seq<Row<M>>, message: M)
    ensures Mentions(a + b, message) <==> Mentions(a, message) || Mentions(b, message)
  {
    var ab := a + b;
    assert forall i :: 0 <= i < |a| ==> ab[i] == a[i];
    assert forall i :: 0 <= i < |b| ==> ab[|a| + i] == b[i];
  }

  lemma DropTimesMentions<M>(rows: seq<Row<M>>, ref: string, n: nat, message: M)
    requires !Mentions(rows, message)
    ensures !Mentions(DropTimes(rows, ref, n), message)
  {
    DropTimesKeeps(rows, ref, n);
    var less := DropTimes(rows, ref, n);
    forall i | 0 <= i < |less| ensures less[i].message != message {
      assert less[i] in rows;
    }
  }

  lemma LeavesOwn<M>(before: seq<Row<M>>, own: Row<M>, behind: seq<Row<M>>, n: nat)
    requires !Mentions(before, own.message) && !Mentions(behind, own.message)
    ensures Mentions(Leaves(before, own, behind, n), own.message) <==> n <= Carriers(before, own.ref)
  {
    var c := Carriers(before, own.ref);
    if n <= c {
      assert [own][0] == own && Mentions([own], own.message);
      MentionsAppend(DropTimes(before, own.ref, n), [own], own.message);
      MentionsAppend(DropTimes(before, own.ref, n) + [own], behind, own.message);
    } else {
      DropTimesMentions(before, own.ref, c, own.message);
      DropTimesMentions(behind, own.ref, n - c - 1, own.message);
      MentionsAppend(DropTimes(before, own.ref, c), DropTimes(behind, own.ref, n - c - 1), own.message);
    }
  }

  lemma DropTimesTwo<M>(rows: seq<Row<M>>, ref: string)
    ensures DropTimes(rows, ref, 0) == rows && DropTimes(rows, ref, 1) == Drop(rows, ref)
    ensures DropTimes(rows, ref, 2) == Drop(Drop(rows, ref), ref)
  {
    assert DropTimes(Drop(rows, ref), ref, 0) == Drop(rows, ref);
    assert DropTimes(Drop(rows, ref), ref, 1) == DropTimes(Drop(Drop(rows, ref), ref), ref, 0);
  }

  /** One removal, or two. */
  function DropOnceOrTwice<M>(rows: seq<Row<M>>, ref: string, twice: bool): seq<Row<M>> {
    if twice then Drop(Drop(rows, ref), ref) else Drop(rows, ref)
  }

  /** A turn is the marking, the reply, and as many removals as it makes. */
  lemma TurnIs<M>(rows: seq<Row<M>>, at: nat, t: Taken, refusing: bool, reply: Option<M>, channelRef: string,
                  full: seq<Row<M>>)
    requires at < |rows| && (Replies(t) ==> reply.Some?)
    requires full == rows[at := MarkedRow(rows[at], t)] + RepliesOf(t, reply, channelRef, |rows|)
    ensures TurnRows(rows, at, t, refusing, reply, channelRef) ==
              if Removals(t, refusing) == 0 then full
              else DropOnceOrTwice(full, MarkedRow(rows[at], t).ref, Removals(t, refusing) == 2)
  {
    DropTimesTwo(full, MarkedRow(rows[at], t).ref);
  }

  /** Where nothing is marked and no reply comes, the list is as it was. */
  lemma PlainTurn<M>(rows: seq<Row<M>>, at: nat, t: Taken, refusing: bool, channelRef: string)
    requires at < |rows| && !Replies(t) && !Marks(t) && Removals(t, refusing) > 0
    ensures TurnRows(rows, at, t, refusing, None, channelRef) ==
              DropOnceOrTwice(rows, rows[at].ref, Removals(t, refusing) == 2)
  {
    assert rows[at := rows[at]] + [] == rows;
    TurnIs(rows, at, t, refusing, None, channelRef, rows);
  }

  /** A turn that puts nothing back keeps every message, the sent one marked, with a reply behind it. */
  lemma KeptRows<M>(before: seq<Row<M>>, own: Row<M>, t: Taken, refusing: bool, reply: Option<M>, channelRef: string)
    requires (Replies(t) ==> reply.Some?) && !Restored(t)
    ensures TurnRows(before + [own], |before|, t, refusing, reply, channelRef) ==
              before + [MarkedRow(own, t)] + RepliesOf(t, reply, channelRef, |before| + 1)
  {
    RestoredRemoves(t, refusing);
    NewestTurn(before, own, t, refusing, reply, channelRef);
    DropTimesTwo(before, MarkedRow(own, t).ref);
  }

  // ----- runs of sends -----

  datatype Talk<M> = Talk(rows: seq<Row<M>>, head: Head)

  /** One send: the message enters under the computed reference, and its turn runs. */
  function Sent<M>(talk: Talk<M>, channelRef: string, own: M, t: Taken, refusing: bool, reply: Option<M>): Talk<M>
    requires Replies(t) ==> reply.Some?
  {
    var n := NextSequence(talk.head, |talk.rows|);
    Talk(TurnRows(talk.rows + [Row(own, LocalRef(channelRef, n), n)], |talk.rows|, t, refusing, reply, channelRef),
         HeadAfter(talk.head, t))
  }

  /** The reference a message is sent under, or the one its turn gave it. */
  function SentRef<M>(talk: Talk<M>, channelRef: string, t: Taken): string {
    if Marks(t) then t.body.requestMessageRef.value else LocalRef(channelRef, NextSequence(talk.head, |talk.rows|))
  }

  /** A send whose text is put back leaves the list as it was, but for a reply already shown, if and only if no message
      of the list carries the reference. */
  lemma SentTakenBackExactly<M>(talk: Talk<M>, channelRef: string, own: M, t: Taken, refusing: bool, reply: Option<M>)
    requires Replies(t) ==> reply.Some? && reply.value != own
    requires !Mentions(talk.rows, own) && Restored(t)
    ensures Sent(talk, channelRef, own, t, refusing, reply).rows ==
              talk.rows + RepliesOf(t, reply, channelRef, |talk.rows| + 1) <==>
            forall row | row in talk.rows :: row.ref != SentRef(talk, channelRef, t)
  {
    var n := NextSequence(talk.head, |talk.rows|);
    NewestTakenBackExactly(talk.rows, Row(own, LocalRef(channelRef, n), n), t, refusing, reply, channelRef);
  }

  /** A send whose text is not put back adds the message, and the reply of a completed turn, and changes nothing
      else of the list. */
  lemma SentKept<M>(talk: Talk<M>, channelRef: string, own: M, t: Taken, refusing: bool, reply: Option<M>)
    requires (Replies(t) ==> reply.Some?) && !Restored(t)
    ensures var rows := Sent(talk, channelRef, own, t, refusing, reply).rows;
            && |rows| == |talk.rows| + 1 + (if Replies(t) then 1 else 0)
            && rows[..|talk.rows|] == talk.rows && rows[|talk.rows|].message == own
            && rows[|talk.rows|].ref == SentRef(talk, channelRef, t)
  {
    var n := NextSequence(talk.head, |talk.rows|);
    KeptRows(talk.rows, Row(own, LocalRef(channelRef, n), n), t, refusing, reply, channelRef);
  }

  // ----- what becomes of a turn, by the fields of its answer -----

  /** The answer of a turn that was completed. */
  ghost predicate AnswersWell(turn: Turn) {
    && turn.Answered? && turn.ok && turn.body.state == "TURN_COMPLETED"
    && turn.body.truthClass == "CURRENT_LOCAL_MODEL" && |turn.body.content| > 0
  }

  /** The answer that asks for a confirmation. */
  ghost predicate AsksBack(turn: Turn) {
    && turn.Answered? && turn.ok && turn.body.state == "CONFIRMATION_REQUIRED"
    && turn.body.truthClass == "CURRENT_SEMANTIC_RELAY_ATTENTION"
  }

  /** Any other answer, when it says that the server holds the message and under which reference. */
  ghost predicate HoldsMessage(turn: Turn) {
    && turn.Answered? && !AnswersWell(turn) && !AsksBack(turn)
    && turn.body.durable && turn.body.requestMessageRef.Some?
  }

  /** The text of every turn is put back that neither completes nor leaves the message with the server, and of
      every turn in which something throws. */
  ghost predicate PutsBack(turn: Turn) {
    turn.Thrown? || turn.fault != NONE || (!AnswersWell(turn) && !HoldsMessage(turn))
  }

  lemma ClassifiedByFields(turn: Turn)
    ensures var t := Classify(turn);
            && (t.Broken? <==> turn.Thrown?)
            && (t.Taken? ==> t.body == turn.body && t.fault == turn.fault)
            && (t.Taken? ==> (t.kind == COMPLETED <==> AnswersWell(turn)) && (t.kind == TO_CONFIRM <==> AsksBack(turn)))
  {
  }

  /** How a turn comes out, by the fields of its answer: whether a reply enters the list, whether the text is put
      back, and how often the message is removed. */
  lemma OutcomeByFields(turn: Turn, refusing: bool)
    ensures var t := Classify(turn);
            && (t.Taken? && t.kind == COMPLETED && t.fault == NONE <==> AnswersWell(turn) && turn.fault == NONE)
            && (Replies(t) <==> AnswersWell(turn) && (turn.fault == NONE || turn.fault == LATE))
            && (Restored(t) <==> PutsBack(turn))
            && Removals(t, refusing) ==
                 if !PutsBack(turn) then 0
                 else if turn.Answered? && !AnswersWell(turn) && !HoldsMessage(turn) && (refusing || turn.fault != NONE)
                 then 2 else 1
  {
    ClassifiedByFields(turn);
  }

  /** The head moves to the identity of the reply, or to that of the message the server holds, once the turn gets
      that far and only to a complete one: a digest, a reference and a number that is not negative. */
  lemma HeadByFields(head: Head, turn: Turn)
    ensures var complete := turn.Answered? && turn.fault != EARLY && turn.body.canonicalHead.Some?
                            && Hex64(turn.body.canonicalHead.value);
            HeadAfter(head, Classify(turn)) ==
              if complete && AnswersWell(turn)
                 && turn.body.responseMessageRef.Some? && turn.body.responseMessageRef.value != ""
                 && turn.body.companionSequence.Some? && turn.body.companionSequence.value >= 0
              then Head(CURRENT, turn.body.companionSequence)
              else if complete && HoldsMessage(turn) && turn.body.requestMessageRef.value != ""
                      && turn.body.humanSequence.Some? && turn.body.humanSequence.value >= 0
              then Head(CURRENT, turn.body.humanSequence)
              else head
  {
    ClassifiedByFields(turn);
  }

  /** The reference of a message in its channel: the prefix, the channel and a number. */
  lemma SentUnder(head: Head, length: nat, channelRef: string)
    ensures var n := NextSequence(head, length);
            && LocalRef(channelRef, n) == "message.demo." + channelRef + "." + NumberText(n)
            && (head.currentness == EMPTY || head.currentness == ABSENT ==> n == 0)
            && (head.currentness == UNKNOWN ==> n == length)
            && (head.currentness == CURRENT ==>
                  n == if head.sequence.Some? && -9007199254740991 <= head.sequence.value <= 9007199254740991
                       then head.sequence.value + 1 else length)
  {
  }

  /** The reference a sent message has when its turn is over. */
  lemma SentRefByFields<M>(talk: Talk<M>, channelRef: string, turn: Turn)
    ensures SentRef(talk, channelRef, Classify(turn)) ==
              if turn.Answered? && turn.body.requestMessageRef.Some?
                 && (AnswersWell(turn) || (turn.body.durable && !AsksBack(turn)))
              then turn.body.requestMessageRef.value
              else LocalRef(channelRef, NextSequence(talk.head, |talk.rows|))
  {
    ClassifiedByFields(turn);
  }

  /** The rows a message and its reply stand in after a turn that puts nothing back. */
  lemma KeptByFields<M>(talk: Talk<M>, channelRef: string, own: M, turn: Turn, refusing: bool, reply: Option<M>)
    requires !PutsBack(turn) && (AnswersWell(turn) <==> reply.Some?)
    requires Replies(Classify(turn)) ==> reply.Some?
    ensures var n, length, body := NextSequence(talk.head, |talk.rows|), |talk.rows|, turn.body;
            var mine := if body.requestMessageRef.None? then Row(own, LocalRef(channelRef, n), n)
                        else Row(own, body.requestMessageRef.value,
                                 if body.humanSequence.Some? && Safe(body.humanSequence.value)
                                 then body.humanSequence.value else n);
            var answer := if reply.None? then []
                          else [Row(reply.value,
                                    if body.responseMessageRef.Some? then body.responseMessageRef.value
                                    else LocalRef(channelRef, length + 1),
                                    if body.companionSequence.Some? && Safe(body.companionSequence.value)
                                    then body.companionSequence.value else length + 1)];
            Sent(talk, channelRef, own, Classify(turn), refusing, reply).rows == talk.rows + [mine] + answer
  {
    ClassifiedByFields(turn);
    OutcomeByFields(turn, refusing);
    var n := NextSequence(talk.head, |talk.rows|);
    KeptRows(talk.rows, Row(own, LocalRef(channelRef, n), n), Classify(turn), refusing, reply, channelRef);
  }

  /** Between sends the head may be adopted from an observation, and the list replaced with it by a refresh. */
  datatype Event<M> =
    | Send(own: M, turn: Taken, refusing: bool, reply: Option<M>)
    | Adopt(head: Head)
    | Refresh(rows: seq<Row<M>>, head: Head)

  predicate Possible<M>(e: Event<M>) { e.Send? && Replies(e.turn) ==> e.reply.Some? }

  function Next<M>(talk: Talk<M>, channelRef: string, e: Event<M>): Talk<M>
    requires Possible(e)
  {
    match e
    case Send(own, turn, refusing, reply) => Sent(talk, channelRef, own, turn, refusing, reply)
    case Adopt(head) => talk.(head := head)
    case Refresh(rows, head) => Talk(rows, head)
  }

  function Run<M>(talk: Talk<M>, channelRef: string, events: seq<Event<M>>): Talk<M>
    requires forall e | e in events :: Possible(e)
  {
    if events == [] then talk
    else
      assert events[|events|-1] in events;
      Next(Run(talk, channelRef, events[..|events|-1]), channelRef, events[|events|-1])
  }

  /** A run is its events one after the other. */
  lemma RunSnoc<M>(talk: Talk<M>, channelRef: string, events: seq<Event<M>>, e: Event<M>)
    requires (forall f | f in events :: Possible(f)) && Possible(e)
    ensures forall f | f in events + [e] :: Possible(f)
    ensures Run(talk, channelRef, []) == talk
    ensures var before, after := Run(talk, channelRef, events), Run(talk, channelRef, events + [e]);
            && (e.Send? ==> after == Sent(before, channelRef, e.own, e.turn, e.refusing, e.reply))
            && (e.Adopt? ==> after == Talk(before.rows, e.head))
            && (e.Refresh? ==> after == Talk(e.rows, e.head))
  {
    assert (events + [e])[..|events|] == events;
  }

  /** A reference that no message of the channel is sent under. */
  predicate Foreign(ref: string, prefix: string) { !(prefix <= ref) }

  ghost predicate AllForeign<M>(rows: seq<Row<M>>, prefix: string) {
    forall row | row in rows :: Foreign(row.ref, prefix)
  }

  /** The references an answer brings are the server's own, and a completed answer brings both. */
  predicate Honest(t: Taken, prefix: string) {
    t.Taken? ==>
      && (t.kind == COMPLETED ==> t.body.requestMessageRef.Some? && t.body.responseMessageRef.Some?)
      && (t.body.requestMessageRef.Some? ==> Foreign(t.body.requestMessageRef.value, prefix))
      && (t.body.responseMessageRef.Some? ==> Foreign(t.body.responseMessageRef.value, prefix))
  }

  ghost predicate HonestEvent<M>(e: Event<M>, prefix: string) {
    match e
    case Send(_, turn, _, _) => Honest(turn, prefix)
    case Adopt(_) => true
    case Refresh(rows, _) => AllForeign(rows, prefix)
  }

  lemma LocalNotForeign<M>(rows: seq<Row<M>>, channelRef: string, n: int)
    requires AllForeign(rows, LocalPrefix(channelRef))
    ensures Carriers(rows, LocalRef(channelRef, n)) == 0
  {
    CarriersZero(rows, LocalRef(channelRef, n));
    assert LocalPrefix(channelRef) <= LocalRef(channelRef, n);
  }

  /** A turn leaves no message under a local reference, when there was none but the sent one. */
  lemma TurnKeepsForeign<M>(before: seq<Row<M>>, own: Row<M>, t: Taken, refusing: bool, reply: Option<M>,
                            channelRef: string, prefix: string)
    requires Replies(t) ==> reply.Some?
    requires AllForeign(before, prefix) && Honest(t, prefix) && Carriers(before, own.ref) == 0
    ensures AllForeign(TurnRows(before + [own], |before|, t, refusing, reply, channelRef), prefix)
  {
    NewestTurn(before, own, t, refusing, reply, channelRef);
    MarkedForeign(before, own, t, refusing, prefix);
    RepliesForeign(t, reply, channelRef, |before| + 1, prefix);
    LeavesForeign(before, MarkedRow(own, t), RepliesOf(t, reply, channelRef, |before| + 1), Removals(t, refusing),
                  prefix);
  }

  lemma MarkedForeign<M>(before: seq<Row<M>>, own: Row<M>, t: Taken, refusing: bool, prefix: string)
    requires Honest(t, prefix) && Carriers(before, own.ref) == 0
    ensures var ref := MarkedRow(own, t).ref; Removals(t, refusing) <= Carriers(before, ref) ==> Foreign(ref, prefix)
  {
  }

  lemma RepliesForeign<M>(t: Taken, reply: Option<M>, channelRef: string, length: nat, prefix: string)
    requires (Replies(t) ==> reply.Some?) && Honest(t, prefix)
    ensures AllForeign(RepliesOf(t, reply, channelRef, length), prefix)
  {
  }

  lemma LeavesForeign<M>(before: seq<Row<M>>, own: Row<M>, behind: seq<Row<M>>, n: nat, prefix: string)
    requires AllForeign(before, prefix) && AllForeign(behind, prefix)
    requires n <= Carriers(before, own.ref) ==> Foreign(own.ref, prefix)
    ensures AllForeign(Leaves(before, own, behind, n), prefix)
  {
    var c := Carriers(before, own.ref);
    if n <= c {
      DropTimesForeign(before, own.ref, n, prefix);
      ForeignAppend(DropTimes(before, own.ref, n), [own], prefix);
      ForeignAppend(DropTimes(before, own.ref, n) + [own], behind, prefix);
    } else {
      DropTimesForeign(before, own.ref, c, prefix);
      DropTimesForeign(behind, own.ref, n - c - 1, prefix);
      ForeignAppend(DropTimes(before, own.ref, c), DropTimes(behind, own.ref, n - c - 1), prefix);
    }
  }

  lemma DropTimesForeign<M>(rows: seq<Row<M>>, ref: string, n: nat, prefix: string)
    requires AllForeign(rows, prefix)
    ensures AllForeign(DropTimes(rows, ref, n), prefix)
  {
    DropTimesKeeps(rows, ref, n);
  }

  lemma ForeignAppend<M>(a: seq<Row<M>>, b: seq<Row<M>>, prefix: string)
    requires AllForeign(a, prefix) && AllForeign(b, prefix)
    ensures AllForeign(a + b, prefix)
  {
  }

  /** Freshness over runs: as long as completed answers bring both references, and the server's references are not
      of the local form, no message of the list ever carries the reference the next one is sent under, wherever the
      head stands. */
  lemma {:induction false} RunFresh<M>(talk: Talk<M>, channelRef: string, events: seq<Event<M>>)
    requires AllForeign(talk.rows, LocalPrefix(channelRef))
    requires forall e | e in events :: Possible(e) && HonestEvent(e, LocalPrefix(channelRef))
    ensures var after := Run(talk, channelRef, events);
            && AllForeign(after.rows, LocalPrefix(channelRef))
            && forall row | row in after.rows ::
                 row.ref != LocalRef(channelRef, NextSequence(after.head, |after.rows|))
  {
    if events != [] {
      var init, e := events[..|events|-1], events[|events|-1];
      assert e in events && forall f | f in init :: f in events;
      RunFresh(talk, channelRef, init);
      var before := Run(talk, channelRef, init);
      if e.Send? {
        var n := NextSequence(before.head, |before.rows|);
        LocalNotForeign(before.rows, channelRef, n);
        TurnKeepsForeign(before.rows, Row(e.own, LocalRef(channelRef, n), n), e.turn, e.refusing, e.reply, channelRef,
                         LocalPrefix(channelRef));
      }
    }
    var after := Run(talk, channelRef, events);
    LocalNotForeign(after.rows, channelRef, NextSequence(after.head, |after.rows|));
    CarriersZero(after.rows, LocalRef(channelRef, NextSequence(after.head, |after.rows|)));
  }

  /** So, after any such run, a turn that puts back a message it has not marked takes out that message alone. */
  lemma RunTakesBack<M>(talk: Talk<M>, channelRef: string, events: seq<Event<M>>, own: M, t: Taken, refusing: bool)
    requires AllForeign(talk.rows, LocalPrefix(channelRef))
    requires forall e | e in events :: Possible(e) && HonestEvent(e, LocalPrefix(channelRef))
    requires !Mentions(Run(talk, channelRef, events).rows, own)
    requires Restored(t) && !Marks(t) && !Replies(t)
    ensures var after := Run(talk, channelRef, events);
            Sent(after, channelRef, own, t, refusing, None).rows == after.rows
  {
    RunFresh(talk, channelRef, events);
    var after := Run(talk, channelRef, events);
    var n := NextSequence(after.head, |after.rows|);
    NewestTakenBackExactly(after.rows, Row(own, LocalRef(channelRef, n), n), t, refusing, None, channelRef);
    assert after.rows + [] == after.rows;
  }

  /** It fails where a completed answer brings no reference: in a conversation that still reads ABSENT, the second
      message is sent under the reference of the first, and when its request throws, the first message is removed and
      the second stays. */
  lemma SecondSendTakesFirst<M>(channelRef: string, body: Body, a: M, r: M, b: M)
    requires body.requestMessageRef.None? && body.responseMessageRef.None?
    ensures var start: Talk<M> := Talk([], Head(ABSENT, None));
            var once := Sent(start, channelRef, a, Taken(COMPLETED, body, NONE), false, Some(r));
            var twice := Sent(once, channelRef, b, Broken, false, None);
            && |once.rows| == 2 && once.rows[0] == Row(a, LocalRef(channelRef, 0), 0) && once.rows[1].message == r
            && once.head == start.head
            && twice.rows == [once.rows[1], Row(b, LocalRef(channelRef, 0), 0)]
  {
    var start: Talk<M> := Talk([], Head(ABSENT, None));
    var t := Taken(COMPLETED, body, NONE);
    var ref := LocalRef(channelRef, 0);
    var first := Row(a, ref, 0);
    var once := Sent(start, channelRef, a, t, false, Some(r));
    assert start.rows + [first] == [first] && [first][0 := first] == [first];
    assert once.rows == [first] + RepliesOf(t, Some(r), channelRef, 1);
    var second := Row(b, ref, 0);
    var rows := once.rows + [second];
    assert rows[2 := second] == rows && rows + [] == rows;
    assert First(rows, ref) == 0;
    assert DropTimes(rows, ref, 1) == DropTimes(Drop(rows, ref), ref, 0) == Drop(rows, ref);
    assert Drop(rows, ref) == [once.rows[1], second];
  }
}
