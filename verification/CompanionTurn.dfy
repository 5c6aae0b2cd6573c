/** Sending a message to the companion: the text moves from the composer into the message list, and, when the
    turn does not complete, back into the draft of its channel. Messages are objects that stay in the list
    while the turn rewrites them; the outcome of the turn, and any exception on the way, is a parameter.

    The list and the conversation head follow `MessageList`. Main result: exactly where the sent text is held after a
    turn, for every outcome and every list. */
module CompanionTurn {
  import opened Common
  import opened MessageList
  import opened ScopeKeys

  datatype Failure = Failure(code: string, message: string)

  function FailureOf(b: Body): Failure {
    Failure(if b.failureCode != "" then b.failureCode else "COMPANION_TURN_FAILED", b.message)
  }

  class Message {
    const content: string
    const human: bool
    var messageRef: string
    var sequence: int
    var truthClass: string
    var attention: string
    var canonicalHead: Option<string>
    var failure: Option<Failure>

    constructor (content: string, human: bool, messageRef: string, sequence: int)
      ensures this.content == content && this.human == human
      ensures this.messageRef == messageRef && this.sequence == sequence
    {
      this.content, this.human, this.messageRef, this.sequence := content, human, messageRef, sequence;
      truthClass, attention, canonicalHead, failure := "", "", None, None;
    }
  }

  ghost function RowOf(m: Message): Row<Message>
    reads m
  {
    Row(m, m.messageRef, m.sequence)
  }

  ghost function RowsOf(list: seq<Message>): (rows: seq<Row<Message>>)
    reads list
    ensures |rows| == |list| && forall i :: 0 <= i < |list| ==> rows[i] == RowOf(list[i])
  {
    seq(|list|, i requires 0 <= i < |list| reads list => RowOf(list[i]))
  }

  lemma RowsWithout(list: seq<Message>, k: int)
    requires -1 <= k < |list|
    ensures RowsOf(Without(list, k)) == Without(RowsOf(list), k)
  {
  }

  lemma RowsAppend(a: seq<Message>, b: seq<Message>)
    ensures RowsOf(a + b) == RowsOf(a) + RowsOf(b)
  {
  }

  lemma RowsMention(list: seq<Message>, m: Message)
    ensures Mentions(RowsOf(list), m) <==> m in list
  {
    if m in list {
      var i :| 0 <= i < |list| && list[i] == m;
      assert RowsOf(list)[i].message == m;
    }
  }

  /** The message stands at this place of the list and nowhere else. */
  ghost predicate Only(list: seq<Message>, m: Message, at: int) {
    0 <= at < |list| && list[at] == m && forall i :: 0 <= i < |list| && i != at ==> list[i] != m
  }

  /** The rows before and behind a message do not mention it. */
  lemma Around(list: seq<Message>, m: Message, at: int)
    requires Only(list, m, at)
    ensures var rows := RowsOf(list);
            && rows == rows[..at] + [rows[at]] + rows[at+1..] && rows[at].message == m
            && !Mentions(rows[..at], m) && !Mentions(rows[at+1..], m)
  {
    var rows := RowsOf(list);
    var rest := rows[at+1..];
    forall i | 0 <= i < |rest| ensures rest[i].message != m {
      assert rest[i] == rows[at + 1 + i];
    }
  }

  /** Removing by reference removes this very message exactly when no earlier one carries its reference. */
  lemma RemovesExactly(list: seq<Message>, m: Message, at: int)
    requires Only(list, m, at)
    ensures var k := First(RowsOf(list), m.messageRef);
            k >= 0 && (m !in Without(list, k) <==> forall i :: 0 <= i < at ==> list[i].messageRef != m.messageRef)
  {
    var k := First(RowsOf(list), m.messageRef);
    FirstIs(RowsOf(list), m.messageRef);
    assert RowsOf(list)[at].ref == m.messageRef;
    if k == at {
      forall i | 0 <= i < |Without(list, k)| ensures Without(list, k)[i] != m {
        assert Without(list, k)[i] == list[if i < at then i else i + 1];
      }
    } else {
      assert RowsOf(list)[k].ref == m.messageRef;
      assert Without(list, k)[at-1] == m;
    }
  }

  // ----- drafts -----

  /** The storage key of a scope tells scopes apart. */
  ghost predicate Isolating(keyOf: Scope -> string) {
    forall a, b :: keyOf(a) == keyOf(b) ==> a == b
  }

  lemma DraftKeyIsolates()
    ensures Isolating(DraftKey)
  {
    forall a, b | DraftKey(a) == DraftKey(b) ensures a == b {
      DraftKeyInjective(a, b);
    }
  }

  /** The unsent drafts: the session storage, and the one draft held in memory. */
  class Drafts {
    const device: Device
    const keyOf: Scope -> string
    var items: Items
    var unsentLocalDraft: Option<Record>

    constructor (device: Device, keyOf: Scope -> string, items: Items)
      ensures this.device == device && this.keyOf == keyOf && this.items == items && unsentLocalDraft.None?
    {
      this.device, this.keyOf, this.items, unsentLocalDraft := device, keyOf, items, None;
    }

    function Stored(channel: Scope): Option<Record>
      reads this
    {
      ReadAt(keyOf(channel), device, items, channel)
    }

    /** The text of the draft of a channel, as the composer reads it. */
    function Text(channel: Scope): Option<string>
      reads this
    {
      if unsentLocalDraft.Some? && unsentLocalDraft.value.scope == channel then Some(unsentLocalDraft.value.content)
      else if Stored(channel).Some? then Some(Stored(channel).value.content)
      else None
    }

    /** Write or remove the draft of a channel; true when the storage throws. Exactly a working storage
        brings the text back, and no other channel's stored draft changes. */
    method SetLocalDraft(channel: Scope, content: string, now: string) returns (threw: bool)
      requires Isolating(keyOf)
      modifies this
      ensures threw <==> device == REFUSING && content != ""
      ensures threw ==> items == old(items) && unsentLocalDraft == old(unsentLocalDraft)
      ensures !threw && (content == "" || device == MISSING) ==> Text(channel).None?
      ensures device == WORKING && content != "" ==> Text(channel) == Some(content)
      ensures forall other | other != channel :: Stored(other) == old(Stored(other))
    {
      var written := WriteAt(keyOf(channel), device, items, channel, content, now);
      if written.WriteThrew? {
        return true;
      }
      items := written.items;
      if written.record.None? {
        if unsentLocalDraft.Some? && unsentLocalDraft.value.scope.channelRef == channel.channelRef {
          unsentLocalDraft := None;
        }
        return false;
      }
      unsentLocalDraft := written.record;
      return false;
    }
  }

  /** What a send that puts nothing back shows: the list, the sent message under the reference the server gave it,
      and the reply of a completed turn. */
  ghost predicate ShowsTurn(list: seq<Message>, before: seq<Row<Message>>, message: Message, turn: Turn)
    requires turn.Answered?
    reads list
  {
    && |list| == |before| + (if AnswersWell(turn) then 2 else 1)
    && RowsOf(list)[..|before|] == before && list[|before|] == message
    && (turn.body.requestMessageRef.Some? ==> message.messageRef == turn.body.requestMessageRef.value)
    && (AnswersWell(turn) ==> !list[|list|-1].human && list[|list|-1].content == turn.body.content)
  }

  /** A text put back leaves the list as it was, but for a reply already shown, just when no message carried the
      reference. */
  ghost predicate TakenBackCleanly(rows: seq<Row<Message>>, before: Talk<Message>, channelRef: string, turn: Turn,
                                   reply: Option<Message>)
    requires Replies(Classify(turn)) ==> reply.Some?
  {
    rows == before.rows + RepliesOf(Classify(turn), reply, channelRef, |before.rows| + 1) <==>
    forall row | row in before.rows :: row.ref != SentRef(before, channelRef, Classify(turn))
  }

  lemma SendShows(list: seq<Message>, talk: Talk<Message>, channelRef: string, message: Message, turn: Turn,
                  refusing: bool, reply: Option<Message>)
    requires (reply.Some? <==> Replies(Classify(turn))) && !Mentions(talk.rows, message)
    requires reply.Some? ==> reply.value != message && !reply.value.human && reply.value.content == turn.body.content
    requires RowsOf(list) == Sent(talk, channelRef, message, Classify(turn), refusing, reply).rows
    ensures if PutsBack(turn) then TakenBackCleanly(RowsOf(list), talk, channelRef, turn, reply)
            else turn.Answered? && ShowsTurn(list, talk.rows, message, turn)
  {
    OutcomeByFields(turn, refusing);
    if PutsBack(turn) {
      SentTakenBackExactly(talk, channelRef, message, Classify(turn), refusing, reply);
    } else {
      KeptByFields(talk, channelRef, message, turn, refusing, reply);
      assert RowsOf(list)[|talk.rows|].message == message && RowsOf(list)[|talk.rows|].ref == message.messageRef;
      assert reply.Some? ==> RowsOf(list)[|talk.rows| + 1].message == reply.value;
    }
  }

  // ----- the chat of one companion channel -----

  class Chat {
    const channel: Scope
    const drafts: Drafts
    var list: seq<Message>
    var head: Head
    var companionTurnPending: bool
    var input: string
    var currentChannelRef: string

    constructor (channel: Scope, drafts: Drafts, list: seq<Message>, head: Head, currentChannelRef: string)
      ensures this.channel == channel && this.drafts == drafts && this.list == list && this.head == head
      ensures this.currentChannelRef == currentChannelRef && !companionTurnPending && input == ""
    {
      this.channel, this.drafts, this.list, this.head := channel, drafts, list, head;
      this.currentChannelRef, companionTurnPending, input := currentChannelRef, false, "";
    }

    ghost function Rows(): seq<Row<Message>>
      reads this, list
    {
      RowsOf(list)
    }

    ghost function View(): Talk<Message>
      reads this, list
    {
      Talk(Rows(), head)
    }

    ghost predicate Refusing() { drafts.device == REFUSING }

    /** The text is where a working storage keeps it, and nowhere when there is none. */
    ghost predicate Drafted(content: string)
      reads drafts
    {
      && (drafts.device == WORKING ==> drafts.Text(channel) == Some(content))
      && (drafts.device == MISSING ==> drafts.Text(channel).None?)
    }

    method FindIndex(ref: string) returns (index: int)
      ensures index == First(Rows(), ref)
    {
      index := 0;
      while index < |list| && list[index].messageRef != ref
        invariant 0 <= index <= |list|
        invariant forall i :: 0 <= i < index ==> list[i].messageRef != ref
      {
        index := index + 1;
      }
      FirstIs(Rows(), ref);
      if index == |list| {
        index := -1;
      } else {
        assert Rows()[index].ref == ref;
      }
    }

    method RemoveSource(source: Message)
      modifies this`list
      ensures Rows() == Drop(old(Rows()), source.messageRef)
    {
      var index := FindIndex(source.messageRef);
      RowsWithout(list, index);
      list := Without(list, index);
    }

    /** The draft takes a text, and the composer when it shows this channel. */
    method Compose(content: string, shown: bool, now: string) returns (threw: bool)
      requires Isolating(drafts.keyOf) && content != ""
      modifies this`input, drafts
      ensures threw <==> Refusing()
      ensures threw ==> drafts.items == old(drafts.items) && drafts.unsentLocalDraft == old(drafts.unsentLocalDraft)
      ensures Drafted(content) && Rows() == old(Rows())
      ensures input == if !threw && shown then content else old(input)
    {
      threw := drafts.SetLocalDraft(channel, content, now);
      if !threw && shown {
        input := content;
      }
    }

    /** Take a message back: the first one that carries its reference leaves the list, and its text enters the draft;
        true when the storage throws. */
    method RestoreCompanionDraft(content: string, source: Message, now: string) returns (threw: bool)
      requires Isolating(drafts.keyOf) && content != ""
      modifies this`list, this`input, drafts
      ensures Rows() == Drop(old(Rows()), source.messageRef)
      ensures threw <==> Refusing()
      ensures threw ==> drafts.items == old(drafts.items) && drafts.unsentLocalDraft == old(drafts.unsentLocalDraft)
      ensures Drafted(content)
      ensures input == if !threw && currentChannelRef == channel.channelRef then content else old(input)
    {
      RemoveSource(source);
      threw := Compose(content, currentChannelRef == channel.channelRef, now);
    }

    /** A turn that must be confirmed: the message is removed, its text goes into the draft and the composer, and both
        once more when something throws. */
    method TakeUpConfirmation(content: string, source: Message, fault: Fault, now: string) returns (threw: bool)
      requires Isolating(drafts.keyOf) && content != ""
      modifies this`list, this`input, drafts
      ensures Rows() == DropOnceOrTwice(old(Rows()), source.messageRef, Refusing() || fault != NONE)
      ensures threw <==> Refusing()
      ensures threw ==> drafts.items == old(drafts.items) && drafts.unsentLocalDraft == old(drafts.unsentLocalDraft)
      ensures Drafted(content)
      ensures input == if threw then old(input) else content
    {
      RemoveSource(source);
      threw := Compose(content, true, now);
      if threw || fault != NONE {
        threw := RestoreCompanionDraft(content, source, now);
      }
    }

    /** Taking back, and once more when something throws. */
    method RestoreAgain(content: string, source: Message, fault: Fault, now: string) returns (threw: bool)
      requires Isolating(drafts.keyOf) && content != ""
      modifies this`list, this`input, drafts
      ensures Rows() == DropOnceOrTwice(old(Rows()), source.messageRef, Refusing() || fault != NONE)
      ensures threw <==> Refusing()
      ensures threw ==> drafts.items == old(drafts.items) && drafts.unsentLocalDraft == old(drafts.unsentLocalDraft)
      ensures Drafted(content)
      ensures input == if !threw && currentChannelRef == channel.channelRef then content else old(input)
    {
      threw := RestoreCompanionDraft(content, source, now);
      if threw || fault != NONE {
        threw := RestoreCompanionDraft(content, source, now);
      }
    }

    /** The head follows a complete identity, once it is reached. */
    method BindHead(t: Taken)
      requires t.Taken? && (t.kind == COMPLETED || (t.kind == FAILED && Durable(t.body)))
      modifies this`head
      ensures head == HeadAfter(old(head), t)
    {
      if t.fault == EARLY {
        return;
      }
      var ref := if t.kind == COMPLETED then t.body.responseMessageRef else t.body.requestMessageRef;
      var sequence := if t.kind == COMPLETED then t.body.companionSequence else t.body.humanSequence;
      if t.body.canonicalHead.Some? && Hex64(t.body.canonicalHead.value) && ref.Some? && ref.value != ""
         && sequence.Some? && sequence.value >= 0 {
        head := Head(CURRENT, sequence);
      }
    }

    /** The reference, the number and the state the server gives the sent message, when it gives a reference. */
    method MarkSource(source: Message, t: Taken, ghost at: int)
      requires Only(list, source, at) && t.Taken?
      modifies source
      ensures Rows() == old(Rows())[at := MarkedRow(old(Rows())[at], t)]
      ensures Marks(t) ==>
                && source.truthClass == "DURABLE_CONVERSATION_HUMAN"
                && if t.kind == COMPLETED
                   then source.canonicalHead == t.body.humanHead && source.attention == "COMPLETED"
                        && source.failure.None?
                   else source.canonicalHead == t.body.canonicalHead
                        && source.attention == "FAILED_AFTER_DURABLE_SEND"
                        && source.failure == Some(FailureOf(t.body))
    {
      if !Marks(t) {
        return;
      }
      source.messageRef := t.body.requestMessageRef.value;
      if t.body.humanSequence.Some? && Safe(t.body.humanSequence.value) {
        source.sequence := t.body.humanSequence.value;
      }
      source.truthClass := "DURABLE_CONVERSATION_HUMAN";
      if t.kind == COMPLETED {
        source.canonicalHead, source.attention, source.failure := t.body.humanHead, "COMPLETED", None;
      } else {
        source.canonicalHead, source.attention := t.body.canonicalHead, "FAILED_AFTER_DURABLE_SEND";
        source.failure := Some(FailureOf(t.body));
      }
    }

    /** A turn that failed: the message stays when it is durable, otherwise it is taken back. */
    method TakeUpFailure(content: string, source: Message, t: Taken, now: string, ghost at: int)
      returns (threw: bool)
      requires Isolating(drafts.keyOf) && content != "" && t.Taken? && t.kind == FAILED && Only(list, source, at)
      modifies this`list, this`head, this`input, drafts, source
      ensures Rows() == TurnRows(old(Rows()), at, t, Refusing(), None, channel.channelRef)
      ensures head == HeadAfter(old(head), t)
      ensures threw <==> Refusing() && Restored(t)
      ensures !Restored(t) || threw ==> && drafts.items == old(drafts.items)
                                        && drafts.unsentLocalDraft == old(drafts.unsentLocalDraft)
      ensures Restored(t) ==> Drafted(content)
      ensures input == if Restored(t) && !threw && currentChannelRef == channel.channelRef then content else old(input)
      ensures Durable(t.body) ==>
                && source.truthClass == "DURABLE_CONVERSATION_HUMAN" && source.canonicalHead == t.body.canonicalHead
                && source.attention == "FAILED_AFTER_DURABLE_SEND" && source.failure == Some(FailureOf(t.body))
    {
      ghost var rows := Rows();
      if !Durable(t.body) {
        PlainTurn(rows, at, t, Refusing(), channel.channelRef);
        threw := RestoreAgain(content, source, t.fault, now);
        return;
      }
      MarkSource(source, t, at);
      assert Rows() + RepliesOf(t, None, channel.channelRef, |rows|) == Rows();
      TurnIs(rows, at, t, Refusing(), None, channel.channelRef, Rows());
      BindHead(t);
      threw := false;
      if t.fault != NONE {
        threw := RestoreCompanionDraft(content, source, now);
      }
    }

    /** What a completed answer does to the list and the head before anything is put back. */
    method Attach(source: Message, t: Taken, ghost at: int) returns (reply: Option<Message>)
      requires t.Taken? && t.kind == COMPLETED && Only(list, source, at)
      modifies this`list, this`head, source
      ensures reply.Some? <==> Replies(t)
      ensures reply.Some? ==> fresh(reply.value) && !reply.value.human && reply.value.content == t.body.content
                              && reply.value.truthClass == "CURRENT_LOCAL_MODEL"
                              && reply.value.canonicalHead == t.body.canonicalHead
      ensures var marked := MarkedRow(old(Rows())[at], t);
              && Rows() == old(Rows())[at := marked] + RepliesOf(t, reply, channel.channelRef, |old(Rows())|)
              && source.messageRef == marked.ref
      ensures head == HeadAfter(old(head), t)
      ensures t.body.requestMessageRef.Some? ==>
                && source.truthClass == "DURABLE_CONVERSATION_HUMAN" && source.canonicalHead == t.body.humanHead
                && source.attention == "COMPLETED" && source.failure.None?
    {
      MarkSource(source, t, at);
      assert Rows()[at].ref == source.messageRef;
      BindHead(t);
      reply := Reply(t);
    }

    /** A turn that completed: the message becomes durable and the reply follows it. */
    method TakeUpCompletion(content: string, source: Message, t: Taken, now: string, ghost at: int)
      returns (threw: bool, reply: Option<Message>)
      requires Isolating(drafts.keyOf) && content != "" && t.Taken? && t.kind == COMPLETED && Only(list, source, at)
      modifies this`list, this`head, this`input, drafts, source
      ensures reply.Some? <==> Replies(t)
      ensures reply.Some? ==> fresh(reply.value) && !reply.value.human && reply.value.content == t.body.content
                              && reply.value.truthClass == "CURRENT_LOCAL_MODEL"
                              && reply.value.canonicalHead == t.body.canonicalHead
      ensures Rows() == TurnRows(old(Rows()), at, t, Refusing(), reply, channel.channelRef)
      ensures head == HeadAfter(old(head), t)
      ensures threw <==> Refusing() && Restored(t)
      ensures !Restored(t) || threw ==> && drafts.items == old(drafts.items)
                                        && drafts.unsentLocalDraft == old(drafts.unsentLocalDraft)
      ensures Restored(t) ==> Drafted(content)
      ensures input == if Restored(t) && !threw && currentChannelRef == channel.channelRef then content else old(input)
      ensures t.body.requestMessageRef.Some? ==>
                && source.truthClass == "DURABLE_CONVERSATION_HUMAN" && source.canonicalHead == t.body.humanHead
                && source.attention == "COMPLETED" && source.failure.None?
    {
      ghost var rows := Rows();
      reply := Attach(source, t, at);
      TurnIs(rows, at, t, Refusing(), reply, channel.channelRef, Rows());
      threw := false;
      if t.fault != NONE {
        threw := RestoreCompanionDraft(content, source, now);
      }
    }

    /** The reply, when taking up the answer gets that far. */
    method Reply(t: Taken) returns (reply: Option<Message>)
      requires t.Taken?
      modifies this`list
      ensures reply.Some? <==> Replies(t)
      ensures reply.Some? ==> fresh(reply.value) && !reply.value.human && reply.value.content == t.body.content
                              && reply.value.truthClass == "CURRENT_LOCAL_MODEL"
                              && reply.value.canonicalHead == t.body.canonicalHead
      ensures Rows() == old(Rows()) + RepliesOf(t, reply, channel.channelRef, |old(Rows())|)
    {
      if !Replies(t) {
        assert Rows() + [] == Rows();
        return None;
      }
      var message := AppendReply(t.body);
      return Some(message);
    }

    /** The companion's message for a completed turn goes behind the list. */
    method AppendReply(body: Body) returns (reply: Message)
      modifies this`list
      ensures fresh(reply) && !reply.human && reply.content == body.content
      ensures reply.truthClass == "CURRENT_LOCAL_MODEL" && reply.canonicalHead == body.canonicalHead
      ensures Rows() == old(Rows()) + [ReplyRow(reply, body, channel.channelRef, |old(list)|)]
    {
      var length := |list|;
      reply := new Message(body.content, false,
                           if body.responseMessageRef.Some? then body.responseMessageRef.value
                           else LocalRef(channel.channelRef, length),
                           if body.companionSequence.Some? && Safe(body.companionSequence.value)
                           then body.companionSequence.value else length);
      reply.truthClass, reply.canonicalHead := "CURRENT_LOCAL_MODEL", body.canonicalHead;
      RowsAppend(list, [reply]);
      list := list + [reply];
    }

    /** A turn that broke, or must be confirmed: the text goes back. */
    method TakeBack(content: string, source: Message, t: Taken, now: string, ghost at: int) returns (threw: bool)
      requires Isolating(drafts.keyOf) && content != "" && Only(list, source, at)
      requires t.Broken? || t.kind == TO_CONFIRM
      modifies this`list, this`input, drafts
      ensures Rows() == TurnRows(old(Rows()), at, t, Refusing(), None, channel.channelRef)
      ensures threw <==> Refusing()
      ensures Drafted(content)
      ensures !threw && currentChannelRef == channel.channelRef ==> input == content
      ensures threw ==> input == old(input)
      ensures threw ==> drafts.items == old(drafts.items) && drafts.unsentLocalDraft == old(drafts.unsentLocalDraft)
    {
      PlainTurn(Rows(), at, t, Refusing(), channel.channelRef);
      if t.Broken? {
        threw := RestoreCompanionDraft(content, source, now);
      } else {
        threw := TakeUpConfirmation(content, source, t.fault, now);
      }
    }

    /** The turn once its answer is classified. */
    method Respond(content: string, source: Message, t: Taken, now: string, ghost at: int)
      returns (threw: bool, reply: Option<Message>)
      requires Isolating(drafts.keyOf) && content != "" && Only(list, source, at)
      modifies this`list, this`head, this`input, drafts, source
      ensures reply.Some? <==> Replies(t)
      ensures reply.Some? ==> fresh(reply.value) && !reply.value.human && reply.value.content == t.body.content
      ensures Rows() == TurnRows(old(Rows()), at, t, Refusing(), reply, channel.channelRef)
      ensures head == HeadAfter(old(head), t)
      ensures threw <==> Refusing() && Restored(t)
      ensures Restored(t) ==> Drafted(content)
      ensures !Restored(t) || threw ==> && drafts.items == old(drafts.items) && input == old(input)
                                        && drafts.unsentLocalDraft == old(drafts.unsentLocalDraft)
      ensures Restored(t) && !threw && currentChannelRef == channel.channelRef ==> input == content
    {
      reply := None;
      if t.Broken? || t.kind == TO_CONFIRM {
        threw := TakeBack(content, source, t, now, at);
      } else if t.kind == FAILED {
        threw := TakeUpFailure(content, source, t, now, at);
      } else {
        threw, reply := TakeUpCompletion(content, source, t, now, at);
      }
    }

    /** The turn, and where the text is held after it. */
    method Take(content: string, source: Message, t: Taken, now: string, ghost at: int)
      returns (completed: bool, threw: bool, reply: Option<Message>)
      requires Isolating(drafts.keyOf) && content != "" && Only(list, source, at)
      requires drafts.Text(channel).None?
      modifies this, drafts, source
      ensures !companionTurnPending && currentChannelRef == old(currentChannelRef)
      ensures completed <==> t.Taken? && t.kind == COMPLETED && t.fault == NONE
      ensures reply.Some? <==> Replies(t)
      ensures reply.Some? ==> fresh(reply.value) && !reply.value.human && reply.value.content == t.body.content
      ensures Rows() == TurnRows(old(Rows()), at, t, Refusing(), reply, channel.channelRef)
      ensures head == HeadAfter(old(head), t)
      ensures threw <==> Refusing() && Restored(t)
      ensures drafts.Text(channel) == if Restored(t) && drafts.device == WORKING then Some(content) else None
      ensures Restored(t) && !threw && currentChannelRef == channel.channelRef ==> input == content
      ensures !Restored(t) || threw ==> input == old(input)
      ensures source in list <==>
              Removals(t, Refusing()) <= Carriers(old(Rows())[..at], MarkedRow(old(Rows())[at], t).ref)
    {
      ghost var rows := Rows();
      Around(list, source, at);
      companionTurnPending := true;
      threw, reply := Respond(content, source, t, now, at);
      completed := t.Taken? && t.kind == COMPLETED && t.fault == NONE;
      companionTurnPending := false;
      OwnStaysExactly(rows[..at], rows[at], rows[at+1..], t, Refusing(), reply, channel.channelRef);
      RowsMention(list, source);
    }

    /** A companion turn for a message that stands in the list, whatever references the list holds. `threw` says that
        the call itself rejects. The list and the head are those of the turn. The sent text is held, by the list or by
        the draft of its channel, exactly when it was not to be taken back, or the session storage works, or earlier
        carriers of its reference used up the removals; the composer shows a text put back too, unless the call
        rejects or the channel is no longer the current one. */
    method RequestReply(content: string, source: Message, turn: Turn, now: string, ghost at: int)
      returns (completed: bool, threw: bool, reply: Option<Message>)
      requires Isolating(drafts.keyOf) && content != "" && Only(list, source, at)
      requires drafts.Text(channel).None?
      modifies this, drafts, source
      ensures !companionTurnPending && currentChannelRef == old(currentChannelRef)
      ensures var t := Classify(turn);
              && (completed <==> t.Taken? && t.kind == COMPLETED && t.fault == NONE)
              && (reply.Some? <==> Replies(t))
              && (reply.Some? ==> fresh(reply.value) && !reply.value.human && reply.value.content == t.body.content)
              && Rows() == TurnRows(old(Rows()), at, t, Refusing(), reply, channel.channelRef)
              && head == HeadAfter(old(head), t)
              && (threw <==> Refusing() && Restored(t))
              && (Restored(t) && !threw && currentChannelRef == channel.channelRef ==> input == content)
              && (!Restored(t) || threw ==> input == old(input))
              && drafts.Text(channel) == (if Restored(t) && drafts.device == WORKING then Some(content) else None)
      ensures completed <==> AnswersWell(turn) && turn.fault == NONE
      ensures reply.Some? <==> AnswersWell(turn) && (turn.fault == NONE || turn.fault == LATE)
      ensures drafts.Text(channel) == if PutsBack(turn) && drafts.device == WORKING then Some(content) else None
      ensures threw <==> Refusing() && PutsBack(turn)
      ensures var t := Classify(turn);
              var ref := MarkedRow(old(Rows())[at], t).ref;
              var stays := Removals(t, Refusing()) <= Carriers(old(Rows())[..at], ref);
              && (source in list <==> stays)
              && (source in list || drafts.Text(channel) == Some(content) <==>
                    !Restored(t) || drafts.device == WORKING || stays)
    {
      OutcomeByFields(turn, Refusing());
      completed, threw, reply := Take(content, source, Classify(turn), now, at);
      RestoredRemoves(Classify(turn), Refusing());
    }

    /** The text enters the list as a message under the computed reference, and the draft is cleared. */
    method Enter(text: string, now: string) returns (message: Message)
      requires Isolating(drafts.keyOf)
      modifies this`list, drafts
      ensures fresh(message) && message.human && message.content == text && list == old(list) + [message]
      ensures var n := NextSequence(head, |old(list)|);
              Rows() == old(Rows()) + [Row(message, LocalRef(channel.channelRef, n), n)]
      ensures drafts.Text(channel).None?
    {
      var n := NextSequence(head, |list|);
      message := new Message(text, true, LocalRef(channel.channelRef, n), n);
      RowsAppend(list, [message]);
      list := list + [message];
      var _ := drafts.SetLocalDraft(channel, "", now);
    }

    /** Sending once it is allowed: the message enters the list under the computed reference, and the turn runs. */
    method Deliver(text: string, turn: Turn, now: string)
      returns (completed: bool, threw: bool, sent: Message, reply: Option<Message>)
      requires Isolating(drafts.keyOf) && text != ""
      modifies this, drafts
      ensures fresh(sent) && sent.human && sent.content == text && !companionTurnPending
      ensures reply.Some? <==> Replies(Classify(turn))
      ensures View() == Sent(old(View()), channel.channelRef, sent, Classify(turn), Refusing(), reply)
      ensures completed <==> AnswersWell(turn) && turn.fault == NONE
      ensures drafts.Text(channel) == if PutsBack(turn) && drafts.device == WORKING then Some(text) else None
      ensures threw <==> Refusing() && PutsBack(turn)
      ensures PutsBack(turn) && !threw && currentChannelRef == channel.channelRef ==> input == text
      ensures if PutsBack(turn) then TakenBackCleanly(Rows(), old(View()), channel.channelRef, turn, reply)
              else turn.Answered? && ShowsTurn(list, old(Rows()), sent, turn)
    {
      ghost var talk := View();
      sent := Enter(text, now);
      completed, threw, reply := RequestReply(text, sent, turn, now, |talk.rows|);
      SendShows(list, talk, channel.channelRef, sent, turn, Refusing(), reply);
      OutcomeByFields(turn, Refusing());
    }

    /** Sending: an empty text, or one sent while the channel is not available, changes nothing; otherwise the
        message enters the list under the computed reference, and the turn runs. The list keeps the message, and the
        reply of a completed turn behind it, when nothing is put back; and a text that is put back leaves the list as
        it was, but for a reply already shown, if and only if no message carried the reference. */
    method SendMessage(raw: string, available: bool, turn: Turn, now: string)
      returns (completed: bool, threw: bool, sent: Option<Message>, reply: Option<Message>)
      requires Isolating(drafts.keyOf)
      modifies this, drafts
      ensures sent.Some? <==> Trim(raw) != "" && available && !old(companionTurnPending)
      ensures sent.None? ==> && View() == old(View()) && !completed && !threw
                             && companionTurnPending == old(companionTurnPending)
                             && drafts.Text(channel) == old(drafts.Text(channel))
      ensures sent.Some? ==>
                && fresh(sent.value) && sent.value.human && sent.value.content == Trim(raw) && !companionTurnPending
                && (reply.Some? <==> Replies(Classify(turn)))
                && View() == Sent(old(View()), channel.channelRef, sent.value, Classify(turn), Refusing(), reply)
                && (completed <==> AnswersWell(turn) && turn.fault == NONE)
                && drafts.Text(channel) == (if PutsBack(turn) && drafts.device == WORKING then Some(Trim(raw)) else None)
                && (threw <==> Refusing() && PutsBack(turn))
                && (PutsBack(turn) && !threw && currentChannelRef == channel.channelRef ==> input == Trim(raw))
      ensures sent.Some? ==>
                if PutsBack(turn) then TakenBackCleanly(Rows(), old(View()), channel.channelRef, turn, reply)
                else turn.Answered? && ShowsTurn(list, old(Rows()), sent.value, turn)
    {
      var text := Trim(raw);
      if text == "" || !available || companionTurnPending {
        return false, false, None, None;
      }
      var message;
      completed, threw, message, reply := Deliver(text, turn, now);
      sent := Some(message);
    }
  }
}
