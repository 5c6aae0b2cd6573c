/** Draft transactions of the purpose workspace: requests against an expected revision patch or reset the
    draft, or set its journal link; every request leaves a receipt, and a bounded window of receipts is kept.

    `Session` holds the mutable state. Its one operation is tied to the function `Transact`, and the
    promises are proved about every sequence of requests. */
module DraftTransactions {
  import opened Common

  const PATCH := "operation.vexlife.draft-surface.seed.patch"
  const RESET := "operation.vexlife.draft-surface.seed.reset"
  const PLATFORMS := "platformRefs"

  datatype Provenance = Provenance(operationRef: string, changedFieldRef: string, targetClassField: string,
                                   variants: map<string, seq<string>>)

  datatype Contract = Contract(draftRef: string, editableFields: seq<string>, historyLimit: int,
                               provenance: Option<Provenance>)

  // ----- what is edited -----

  /** The text fields of the draft by name, and its platform list, which no operation edits. */
  datatype Draft = Draft(fields: map<string, string>, platformRefs: seq<string>)

  const EMPTY_DRAFT := Draft(map["featureRef" := "", "purpose" := ""], ["platform.browser"])

  /** All that a reader of the session sees: the draft and the journal link. */
  datatype Content = Content(draft: Draft, journal: Option<Json>)

  const EMPTY := Content(EMPTY_DRAFT, None)

  datatype Value = Absent | Field(text: string) | Platforms(refs: seq<string>)

  function ValueOf(d: Draft, key: string): Value {
    if key == PLATFORMS then Platforms(d.platformRefs)
    else if key in d.fields then Field(d.fields[key])
    else Absent
  }

  // ----- requests -----

  datatype Entry = Entry(key: string, value: Json)

  /** A payload object has one entry per key, in the order of its keys. */
  datatype Payload = NotAnObject | Object(entries: seq<Entry>)

  ghost predicate WellFormed(p: Payload) {
    p.Object? ==> forall i, j :: 0 <= i < j < |p.entries| ==> p.entries[i].key != p.entries[j].key
  }

  /** `expectedRevision` is None when it is not an integer; an absent or empty `transactionRef` is None. */
  datatype Request = Request(transactionRef: Option<string>, draftRef: Option<string>, operationRef: string,
                             expectedRevision: Option<int>, payload: Payload)

  datatype Disposition = APPLIED | STALE_REJECTED | INVALID_REJECTED

  datatype TransactionRef = Given(ref: string) | Generated(ordinal: nat)

  datatype Receipt = Receipt(ordinal: nat, transactionRef: TransactionRef, operationRef: string,
                             priorRevision: nat, nextRevision: nat, changedFieldRefs: seq<string>,
                             disposition: Disposition)

  // ----- the journal target -----

  predicate NonBlank(v: Json) { v.Str? && Trim(v.s) != "" }

  predicate SourceRefsValid(v: Json) {
    && v.Arr? && v.items != []
    && (forall i :: 0 <= i < |v.items| ==> NonBlank(v.items[i]))
    && forall i, j :: 0 <= i < j < |v.items| ==> v.items[i] != v.items[j]
  }

  predicate FieldValid(members: map<string, Json>, key: string)
    requires key in members
  {
    if key == "sourceRefs" then SourceRefsValid(members[key]) else NonBlank(members[key])
  }

  /** A journal target must be an object with exactly the fields of its class, each well formed. */
  predicate JournalTargetValid(p: Provenance, v: Json) {
    && v.Obj?
    && IsStr(Get(Some(v), p.targetClassField))
    && var class_ := v.members[p.targetClassField].s;
       class_ in p.variants
       && var fields := p.variants[class_];
          |v.members| == |fields|
          && forall key | key in fields :: key in v.members && FieldValid(v.members, key)
  }

  // ----- one operation -----

  datatype Effect = Rejected | Applied(content: Content, changed: seq<string>)

  function Keys(entries: seq<Entry>): (r: seq<string>)
    ensures |r| == |entries| && forall i :: 0 <= i < |r| ==> r[i] == entries[i].key
  {
    seq(|entries|, i requires 0 <= i < |entries| => entries[i].key)
  }

  predicate PatchAllowed(c: Contract, entries: seq<Entry>) {
    entries != [] && forall i :: 0 <= i < |entries| ==> entries[i].key in c.editableFields && entries[i].value.Str?
  }

  /** The keys of a patch whose value differs from the draft's; an array never equals a string. */
  function PatchChanges(d: Draft, entries: seq<Entry>): seq<string> {
    if entries == [] then []
    else
      var e := entries[|entries|-1];
      PatchChanges(d, entries[..|entries|-1])
      + if e.value.Str? && ValueOf(d, e.key) == Field(e.value.s) then [] else [e.key]
  }

  function Patched(d: Draft, entries: seq<Entry>): Draft {
    if entries == [] then d
    else
      var e, rest := entries[|entries|-1], Patched(d, entries[..|entries|-1]);
      if e.value.Str? && e.key != PLATFORMS then rest.(fields := rest.fields[e.key := e.value.s]) else rest
  }

  /** The editable keys that a reset reports: compared by identity, so a list always counts as changed. */
  function ResetChanges(d: Draft, editable: seq<string>): seq<string> {
    if editable == [] then []
    else
      var key := editable[|editable|-1];
      ResetChanges(d, editable[..|editable|-1])
      + if key != PLATFORMS && ValueOf(d, key) == ValueOf(EMPTY_DRAFT, key) then [] else [key]
  }

  /** What an operation does to the content, revisions aside. */
  function Perform(c: Contract, content: Content, operationRef: string, payload: Payload): Effect {
    if payload.NotAnObject? then Rejected
    else if operationRef == PATCH then
      if !PatchAllowed(c, payload.entries) then Rejected
      else
        Applied(content.(draft := Patched(content.draft, payload.entries)),
                PatchChanges(content.draft, payload.entries))
    else if c.provenance.Some? && operationRef == c.provenance.value.operationRef then
      if |payload.entries| != 1 || payload.entries[0].key != "journalTarget" then Rejected
      else
        var target := payload.entries[0].value;
        if target == Null then Applied(content.(journal := None), [c.provenance.value.changedFieldRef])
        else if !JournalTargetValid(c.provenance.value, target) then Rejected
        else Applied(content.(journal := Some(target)), [c.provenance.value.changedFieldRef])
    else if operationRef == RESET then
      if payload.entries != [] then Rejected
      else Applied(content.(draft := EMPTY_DRAFT), ResetChanges(content.draft, c.editableFields))
    else Rejected
  }

  /** The array slice from a start that may be negative; slice(-0) keeps everything. */
  function SliceFrom<T>(s: seq<T>, start: int): seq<T> {
    if start >= |s| then []
    else if start >= 0 then s[start..]
    else if |s| + start >= 0 then s[|s| + start..]
    else s
  }

  // ----- the session -----

  /** What the revision and receipt machinery needs to know of a contract. */
  datatype Rules = Rules(draftRef: string, historyLimit: int, perform: (Content, string, Payload) -> Effect)

  function RulesOf(c: Contract): Rules {
    Rules(c.draftRef, c.historyLimit, (content, operation, payload) => Perform(c, content, operation, payload))
  }

  datatype State = State(content: Content, linked: bool, revision: nat, receipts: seq<Receipt>,
                         receiptOrdinal: nat, transactionOrdinal: nat)

  const INITIAL := State(EMPTY, false, 0, [], 0, 0)

  function Operation(r: Request): string { if r.operationRef != "" then r.operationRef else "operation.invalid" }

  predicate Addressed(c: Rules, r: Request) {
    r.draftRef == Some(c.draftRef) && r.expectedRevision.Some? && r.expectedRevision.value >= 0
  }

  /** The disposition, the receipt and the state once the reference and the operation are settled. */
  function DisposesAs(c: Rules, s: State, r: Request, operation: string): Disposition {
    if !Addressed(c, r) then INVALID_REJECTED
    else if r.expectedRevision.value != s.revision then STALE_REJECTED
    else if c.perform(s.content, operation, r.payload).Rejected? then INVALID_REJECTED
    else APPLIED
  }

  function ReceiptAs(c: Rules, s: State, r: Request, ref: TransactionRef, operation: string): Receipt {
    var d := DisposesAs(c, s, r, operation);
    Receipt(s.receiptOrdinal + 1, ref, operation, s.revision,
            if d == APPLIED then s.revision + 1 else s.revision,
            if d == APPLIED then c.perform(s.content, operation, r.payload).changed else [],
            d)
  }

  function TransactAs(c: Rules, s: State, r: Request, ref: TransactionRef, operation: string): State {
    var receipt := ReceiptAs(c, s, r, ref, operation);
    var content := if receipt.disposition == APPLIED then c.perform(s.content, operation, r.payload).content
                   else s.content;
    State(content, content.journal.Some?, receipt.nextRevision,
          SliceFrom(s.receipts + [receipt], -c.historyLimit), s.receiptOrdinal + 1, s.transactionOrdinal)
  }

  function RefFor(s: State, r: Request): TransactionRef {
    if r.transactionRef.Some? then Given(r.transactionRef.value) else Generated(s.transactionOrdinal + 1)
  }

  /** A request without a reference takes the next one generated. */
  function Referenced(s: State, r: Request): State {
    if r.transactionRef.Some? then s else s.(transactionOrdinal := s.transactionOrdinal + 1)
  }

  function Disposes(c: Rules, s: State, r: Request): Disposition { DisposesAs(c, s, r, Operation(r)) }

  function ReceiptFor(c: Rules, s: State, r: Request): Receipt { ReceiptAs(c, s, r, RefFor(s, r), Operation(r)) }

  function Transact(c: Rules, s: State, r: Request): State {
    TransactAs(c, Referenced(s, r), r, RefFor(s, r), Operation(r))
  }

  /** The state after a sequence of requests, and the full log of their receipts. */
  datatype History = History(state: State, log: seq<Receipt>)

  function Serve(c: Rules, requests: seq<Request>): History {
    if requests == [] then History(INITIAL, [])
    else
      var h, r := Serve(c, requests[..|requests|-1]), requests[|requests|-1];
      History(Transact(c, h.state, r), h.log + [ReceiptFor(c, h.state, r)])
  }

  lemma ServeSnoc(c: Rules, requests: seq<Request>, r: Request)
    ensures var h := Serve(c, requests);
            Serve(c, requests + [r]) == History(Transact(c, h.state, r), h.log + [ReceiptFor(c, h.state, r)])
  {
    assert (requests + [r])[..|requests|] == requests;
  }

  // ----- linearisation -----

  /** The requests that were applied, in order. */
  function AppliedOnly(requests: seq<Request>, log: seq<Receipt>): seq<Request>
    requires |requests| == |log|
  {
    if requests == [] then []
    else
      AppliedOnly(requests[..|requests|-1], log[..|log|-1])
      + if log[|log|-1].disposition == APPLIED then [requests[|requests|-1]] else []
  }

  /** Performing operations one after the other on the empty content, with no revisions and no rejections
      in sight; None when one of them cannot be performed. */
  function Fold(c: Rules, requests: seq<Request>): Option<Content> {
    if requests == [] then Some(EMPTY)
    else
      var before, r := Fold(c, requests[..|requests|-1]), requests[|requests|-1];
      if before.None? then None
      else
        var e := c.perform(before.value, Operation(r), r.payload);
        if e.Applied? then Some(e.content) else None
  }

  lemma {:induction false} LogLength(c: Rules, requests: seq<Request>)
    ensures |Serve(c, requests).log| == |requests|
    ensures Serve(c, requests).state.receiptOrdinal == |requests|
  {
    if requests != [] {
      LogLength(c, requests[..|requests|-1]);
    }
  }

  /** The content of a history is the fold of its applied operations, and the revision is how many there were. */
  ghost predicate Linear(c: Rules, h: History, applied: seq<Request>) {
    && Fold(c, applied) == Some(h.state.content)
    && h.state.revision == |applied|
    && (h.state.linked <==> h.state.content.journal.Some?)
  }

  /** The visible draft and journal link are the fold of the applied operations in order, and the revision
      is how many there were. */
  lemma {:induction false} Linearises(c: Rules, requests: seq<Request>)
    requires |Serve(c, requests).log| == |requests|
    ensures var h := Serve(c, requests); Linear(c, h, AppliedOnly(requests, h.log))
  {
    if requests != [] {
      var init, r := requests[..|requests|-1], requests[|requests|-1];
      LogLength(c, init);
      Linearises(c, init);
      LinearStep(c, requests, init, r);
    }
  }

  lemma LinearStep(c: Rules, requests: seq<Request>, init: seq<Request>, r: Request)
    requires requests == init + [r] && |Serve(c, init).log| == |init|
    requires Linear(c, Serve(c, init), AppliedOnly(init, Serve(c, init).log))
    ensures var h := Serve(c, requests); |h.log| == |requests| && Linear(c, h, AppliedOnly(requests, h.log))
  {
    var h := Serve(c, init);
    ServeSnoc(c, init, r);
    AppliedSnoc(init, h.log, r, ReceiptFor(c, h.state, r));
    TransactLinear(c, h.state, r, AppliedOnly(init, h.log));
  }

  lemma AppliedSnoc(requests: seq<Request>, log: seq<Receipt>, r: Request, receipt: Receipt)
    requires |requests| == |log|
    ensures AppliedOnly(requests + [r], log + [receipt]) ==
              AppliedOnly(requests, log) + if receipt.disposition == APPLIED then [r] else []
  {
    assert (requests + [r])[..|requests|] == requests && (log + [receipt])[..|log|] == log;
  }

  /** One request: applied it extends the fold, otherwise nothing moves. */
  lemma TransactLinear(c: Rules, s: State, r: Request, before: seq<Request>)
    requires Fold(c, before) == Some(s.content) && s.revision == |before|
    requires s.linked <==> s.content.journal.Some?
    ensures var t := Transact(c, s, r);
            var after := before + if ReceiptFor(c, s, r).disposition == APPLIED then [r] else [];
            && Fold(c, after) == Some(t.content) && t.revision == |after|
            && (t.linked <==> t.content.journal.Some?)
  {
    assert (before + [r])[..|before|] == before && before + [] == before;
  }

  /** A rejected request changes nothing but the receipt log and the counters of references. */
  lemma RejectedInert(c: Rules, s: State, r: Request)
    requires s.linked == s.content.journal.Some?
    requires Disposes(c, s, r) != APPLIED
    ensures var t := Transact(c, s, r);
            && t.content == s.content && t.linked == s.linked && t.revision == s.revision
            && ReceiptFor(c, s, r).changedFieldRefs == []
            && ReceiptFor(c, s, r).nextRevision == ReceiptFor(c, s, r).priorRevision == s.revision
  {
  }

  /** Receipts chain: each starts at the revision where the one before ended, the first at zero, and the
      revision rises by one exactly on an applied request. */
  lemma {:induction false} ReceiptsChain(c: Rules, requests: seq<Request>)
    ensures var h := Serve(c, requests);
            && (forall k :: 0 <= k < |h.log| ==>
                  && h.log[k].ordinal == k + 1
                  && h.log[k].priorRevision == (if k == 0 then 0 else h.log[k-1].nextRevision)
                  && h.log[k].nextRevision == h.log[k].priorRevision + if h.log[k].disposition == APPLIED then 1 else 0)
            && (if h.log == [] then h.state.revision == 0 else h.state.revision == h.log[|h.log|-1].nextRevision)
  {
    if requests != [] {
      var init := requests[..|requests|-1];
      ReceiptsChain(c, init);
      LogLength(c, init);
    }
  }

  lemma {:induction false} RevisionsAscend(c: Rules, requests: seq<Request>, i: nat, j: nat)
    requires i <= j < |Serve(c, requests).log|
    ensures Serve(c, requests).log[i].priorRevision <= Serve(c, requests).log[j].priorRevision
    ensures i < j ==> Serve(c, requests).log[i].nextRevision <= Serve(c, requests).log[j].priorRevision
    decreases j
  {
    ReceiptsChain(c, requests);
    if i < j {
      RevisionsAscend(c, requests, i, j - 1);
    }
  }

  /** At most one request is applied per revision: of two applied requests the later one saw the effect of
      the earlier. */
  lemma OneAppliedPerRevision(c: Rules, requests: seq<Request>, i: nat, j: nat)
    requires i < j < |Serve(c, requests).log|
    requires Serve(c, requests).log[i].disposition == APPLIED
    requires Serve(c, requests).log[j].disposition == APPLIED
    ensures Serve(c, requests).log[i].priorRevision < Serve(c, requests).log[j].priorRevision
  {
    ReceiptsChain(c, requests);
    RevisionsAscend(c, requests, i, j);
  }

  // ----- what the expected revision decides -----

  /** The receipt of a request is that of the state which the requests before it left. */
  lemma {:induction false} ServeAt(c: Rules, requests: seq<Request>, i: nat)
    requires i < |requests|
    ensures |Serve(c, requests).log| == |requests|
    ensures Serve(c, requests).log[i] == ReceiptFor(c, Serve(c, requests[..i]).state, requests[i])
    decreases |requests|
  {
    var init, r := requests[..|requests|-1], requests[|requests|-1];
    LogLength(c, requests);
    LogLength(c, init);
    if i < |init| {
      ServeAt(c, init, i);
      assert init[..i] == requests[..i];
    }
  }

  /** The log of a prefix of the requests is the prefix of the log. */
  lemma {:induction false} ServePrefix(c: Rules, requests: seq<Request>, i: nat)
    requires i <= |requests|
    ensures |Serve(c, requests).log| == |requests|
    ensures Serve(c, requests[..i]).log == Serve(c, requests).log[..i]
    decreases |requests|
  {
    LogLength(c, requests);
    if i < |requests| {
      var init := requests[..|requests|-1];
      LogLength(c, init);
      ServePrefix(c, init, i);
      assert init[..i] == requests[..i];
    } else {
      assert requests[..i] == requests;
    }
  }

  /** Every request of a history is judged by the number of requests applied before it. It is stale exactly when
      it is addressed to the draft with a revision that is not this number, and applied exactly when it carries
      this number and its operation can be performed on the content that those requests left. */
  lemma JudgedByAppliedBefore(c: Rules, requests: seq<Request>, i: nat)
    requires i < |requests|
    ensures |Serve(c, requests).log| == |requests|
    ensures var r, log := requests[i], Serve(c, requests).log;
            var before := AppliedOnly(requests[..i], log[..i]);
            && log[i].priorRevision == |before| && Fold(c, before).Some?
            && (log[i].disposition == STALE_REJECTED <==>
                  && r.draftRef == Some(c.draftRef) && r.expectedRevision.Some?
                  && 0 <= r.expectedRevision.value && r.expectedRevision.value != |before|)
            && (log[i].disposition == APPLIED <==>
                  && r.draftRef == Some(c.draftRef) && r.expectedRevision == Some(|before|)
                  && c.perform(Fold(c, before).value, log[i].operationRef, r.payload).Applied?)
  {
    ServeAt(c, requests, i);
    ServePrefix(c, requests, i);
    Linearises(c, requests[..i]);
  }

  /** An applied request carries the revision of its receipt; a stale one carries another. */
  lemma ExpectedRevisionDecides(c: Rules, requests: seq<Request>, i: nat)
    requires i < |requests|
    ensures |Serve(c, requests).log| == |requests|
    ensures var r, receipt := requests[i], Serve(c, requests).log[i];
            && (receipt.disposition == APPLIED ==>
                  r.draftRef == Some(c.draftRef) && r.expectedRevision == Some(receipt.priorRevision))
            && (receipt.disposition == STALE_REJECTED <==>
                  && r.draftRef == Some(c.draftRef) && r.expectedRevision.Some?
                  && 0 <= r.expectedRevision.value && r.expectedRevision.value != receipt.priorRevision)
  {
    JudgedByAppliedBefore(c, requests, i);
  }

  /** The indices of the requests that bring no reference of their own. */
  function Unreferenced(requests: seq<Request>): set<nat> {
    set k: nat | k < |requests| && requests[k].transactionRef.None?
  }

  lemma UnreferencedSnoc(requests: seq<Request>, r: Request)
    ensures |Unreferenced(requests + [r])| == |Unreferenced(requests)| + if r.transactionRef.None? then 1 else 0
  {
    var added: set<nat> := if r.transactionRef.None? then {|requests|} else {};
    assert Unreferenced(requests + [r]) == Unreferenced(requests) + added;
  }

  lemma {:induction false} OrdinalCounts(c: Rules, requests: seq<Request>)
    ensures Serve(c, requests).state.transactionOrdinal == |Unreferenced(requests)|
  {
    if requests != [] {
      var init, r := requests[..|requests|-1], requests[|requests|-1];
      OrdinalCounts(c, init);
      UnreferencedSnoc(init, r);
      assert init + [r] == requests;
    }
  }

  /** Every request leaves one receipt, under its own reference or the next of a numbering without gaps. */
  lemma ReceiptsNamed(c: Rules, requests: seq<Request>, i: nat)
    requires i < |requests|
    ensures |Serve(c, requests).log| == |requests|
    ensures var r, receipt := requests[i], Serve(c, requests).log[i];
            && receipt.transactionRef == (if r.transactionRef.Some? then Given(r.transactionRef.value)
                                          else Generated(|Unreferenced(requests[..i])| + 1))
            && receipt.operationRef == (if r.operationRef != "" then r.operationRef else "operation.invalid")
  {
    ServeAt(c, requests, i);
    OrdinalCounts(c, requests[..i]);
  }

  /** Of the requests that expect one and the same revision at most one is applied. */
  lemma AppliedOncePerExpectation(c: Rules, requests: seq<Request>, i: nat, j: nat)
    requires i < j < |requests| && requests[i].expectedRevision == requests[j].expectedRevision
    ensures |Serve(c, requests).log| == |requests|
    ensures var log := Serve(c, requests).log; !(log[i].disposition == APPLIED && log[j].disposition == APPLIED)
  {
    ExpectedRevisionDecides(c, requests, i);
    ExpectedRevisionDecides(c, requests, j);
    if Serve(c, requests).log[i].disposition == APPLIED && Serve(c, requests).log[j].disposition == APPLIED {
      OneAppliedPerRevision(c, requests, i, j);
    }
  }

  // ----- the kept window -----

  function Last<T>(s: seq<T>, n: nat): seq<T> { if n <= |s| then s[|s| - n..] else s }

  lemma WindowSlides<T>(log: seq<T>, x: T, n: int)
    requires n > 0
    ensures SliceFrom(Last(log, n) + [x], -n) == Last(log + [x], n)
  {
  }

  lemma {:induction false} WindowKept(c: Rules, requests: seq<Request>)
    requires c.historyLimit > 0
    ensures Serve(c, requests).state.receipts == Last(Serve(c, requests).log, c.historyLimit)
  {
    if requests != [] {
      var init := requests[..|requests|-1];
      WindowKept(c, init);
      var receipt := ServeRecords(c, requests);
      WindowSlides(Serve(c, init).log, receipt, c.historyLimit);
    }
  }

  /** Serving one more request records one more receipt. */
  lemma ServeRecords(c: Rules, requests: seq<Request>) returns (receipt: Receipt)
    requires requests != []
    ensures var h := Serve(c, requests[..|requests|-1]);
            && Serve(c, requests).log == h.log + [receipt]
            && Serve(c, requests).state.receipts == SliceFrom(h.state.receipts + [receipt], -c.historyLimit)
  {
    var init, r := requests[..|requests|-1], requests[|requests|-1];
    var h := Serve(c, init);
    receipt := ReceiptFor(c, h.state, r);
    TransactReceipts(c, h.state, r);
    ServeSnoc(c, init, r);
    assert requests == init + [r];
  }

  lemma TransactReceipts(c: Rules, s: State, r: Request)
    ensures Transact(c, s, r).receipts == SliceFrom(s.receipts + [ReceiptFor(c, s, r)], -c.historyLimit)
  {
    ReferenceAside(c, s, r, RefFor(s, r), Operation(r));
  }

  /** Generating a reference does not touch what a receipt is made of. */
  lemma ReferenceAside(c: Rules, s: State, r: Request, ref: TransactionRef, operation: string)
    ensures ReceiptAs(c, Referenced(s, r), r, ref, operation) == ReceiptAs(c, s, r, ref, operation)
    ensures TransactAs(c, Referenced(s, r), r, ref, operation).receipts ==
              SliceFrom(s.receipts + [ReceiptAs(c, s, r, ref, operation)], -c.historyLimit)
  {
  }

  lemma {:induction false} ZeroLimitKeepsAll(c: Rules, requests: seq<Request>)
    requires c.historyLimit == 0
    ensures Serve(c, requests).state.receipts == Serve(c, requests).log
  {
    if requests != [] {
      ZeroLimitKeepsAll(c, requests[..|requests|-1]);
      var _ := ServeRecords(c, requests);
    }
  }

  /** The kept history is the last `historyLimit` receipts of the full log exactly when the limit is
      positive: a limit of zero keeps everything. */
  lemma {:induction false} WindowExactly(c: Rules, requests: seq<Request>)
    requires c.historyLimit >= 0 && requests != []
    ensures Serve(c, requests).state.receipts == Last(Serve(c, requests).log, c.historyLimit) <==> c.historyLimit > 0
  {
    LogLength(c, requests);
    if c.historyLimit > 0 {
      WindowKept(c, requests);
    } else {
      ZeroLimitKeepsAll(c, requests);
    }
  }

  // ----- changed fields -----

  /** The fields that really differ between two drafts. */
  predicate Differs(a: Draft, b: Draft, key: string) { ValueOf(a, key) != ValueOf(b, key) }

  ghost predicate Reports(changes: seq<string>, a: Draft, b: Draft) {
    forall key :: key in changes <==> Differs(a, b, key)
  }

  /** The text a patch gives to a key. */
  function EntryFor(entries: seq<Entry>, key: string): Option<string> {
    if entries == [] then None
    else
      var e := entries[|entries|-1];
      if e.key == key && e.value.Str? then Some(e.value.s) else EntryFor(entries[..|entries|-1], key)
  }

  predicate AllText(entries: seq<Entry>) { forall i :: 0 <= i < |entries| ==> entries[i].value.Str? }

  lemma {:induction false} EntryForKeys(entries: seq<Entry>, key: string)
    requires AllText(entries)
    ensures EntryFor(entries, key).Some? <==> key in Keys(entries)
  {
    if entries != [] {
      EntryForKeys(entries[..|entries|-1], key);
      assert Keys(entries) == Keys(entries[..|entries|-1]) + [entries[|entries|-1].key];
    }
  }

  /** A patch sets exactly the fields it names, except the platform list. */
  lemma {:induction false} PatchValue(d: Draft, entries: seq<Entry>, key: string)
    ensures ValueOf(Patched(d, entries), key) ==
              if key != PLATFORMS && EntryFor(entries, key).Some? then Field(EntryFor(entries, key).value)
              else ValueOf(d, key)
  {
    if entries != [] {
      PatchValue(d, entries[..|entries|-1], key);
    }
  }

  lemma {:induction false} PatchChange(d: Draft, entries: seq<Entry>, key: string)
    requires WellFormed(Object(entries)) && AllText(entries)
    ensures key in PatchChanges(d, entries) <==>
              EntryFor(entries, key).Some? && ValueOf(d, key) != Field(EntryFor(entries, key).value)
  {
    if entries != [] {
      var init, e := entries[..|entries|-1], entries[|entries|-1];
      PatchChange(d, init, key);
      EntryForKeys(init, key);
      if key in Keys(init) {
        var i :| 0 <= i < |Keys(init)| && Keys(init)[i] == key;
        assert entries[i].key == key;
      }
    }
  }

  /** The changed fields of a patch are the real difference exactly when it does not name the platform list:
      that list is not edited, yet its key would be reported. */
  lemma PatchReportsDifference(c: Contract, d: Draft, entries: seq<Entry>)
    requires WellFormed(Object(entries)) && PatchAllowed(c, entries)
    ensures Reports(PatchChanges(d, entries), d, Patched(d, entries)) <==> PLATFORMS !in Keys(entries)
  {
    if PLATFORMS in Keys(entries) {
      PatchChange(d, entries, PLATFORMS);
      PatchValue(d, entries, PLATFORMS);
      EntryForKeys(entries, PLATFORMS);
      assert PLATFORMS in PatchChanges(d, entries) && !Differs(d, Patched(d, entries), PLATFORMS);
    } else {
      forall key ensures key in PatchChanges(d, entries) <==> Differs(d, Patched(d, entries), key) {
        PatchChange(d, entries, key);
        PatchValue(d, entries, key);
        EntryForKeys(entries, key);
      }
    }
  }

  // ----- which requests are applied, and what they do -----

  /** A text with something to read in it. */
  ghost predicate HasText(v: Json) { v.Str? && exists k :: 0 <= k < |v.s| && !IsSpace(v.s[k]) }

  /** A non-empty list of different texts. */
  ghost predicate TextList(v: Json) {
    && v.Arr? && |v.items| > 0
    && (forall i :: 0 <= i < |v.items| ==> HasText(v.items[i]))
    && forall i, j :: 0 <= i < |v.items| && 0 <= j < |v.items| && v.items[i] == v.items[j] ==> i == j
  }

  /** The journal target a contract asks for: the class it names, and nothing but the fields of that class. */
  ghost predicate TargetOfItsClass(p: Provenance, v: Json) {
    && v.Obj?
    && exists class_ :: Get(Some(v), p.targetClassField) == Some(Str(class_)) && class_ in p.variants
         && |v.members| == |p.variants[class_]|
         && forall key :: key in p.variants[class_] ==>
              key in v.members && if key == "sourceRefs" then TextList(v.members[key]) else HasText(v.members[key])
  }

  lemma HasTextExactly(v: Json)
    ensures NonBlank(v) <==> HasText(v)
  {
    if v.Str? {
      TrimBlank(v.s);
    }
  }

  lemma FieldExactly(members: map<string, Json>, key: string)
    requires key in members
    ensures FieldValid(members, key) <==>
              if key == "sourceRefs" then TextList(members[key]) else HasText(members[key])
  {
    var v := members[key];
    HasTextExactly(v);
    if v.Arr? {
      forall i | 0 <= i < |v.items| ensures NonBlank(v.items[i]) <==> HasText(v.items[i]) {
        HasTextExactly(v.items[i]);
      }
    }
  }

  lemma TargetExactly(p: Provenance, v: Json)
    ensures JournalTargetValid(p, v) <==> TargetOfItsClass(p, v)
  {
    if v.Obj? && IsStr(Get(Some(v), p.targetClassField)) {
      var class_ := v.members[p.targetClassField].s;
      if class_ in p.variants {
        forall key | key in p.variants[class_] && key in v.members
          ensures FieldValid(v.members, key) <==>
                    if key == "sourceRefs" then TextList(v.members[key]) else HasText(v.members[key])
        {
          FieldExactly(v.members, key);
        }
      }
    }
  }

  /** Which operations a contract lets through. A patch sets at least one field, only editable ones, each to a
      text. A link has one entry, a null target or one that the contract asks for. A reset is an empty object. */
  ghost predicate Performable(c: Contract, operation: string, payload: Payload) {
    && payload.Object?
    && if operation == "operation.vexlife.draft-surface.seed.patch" then
         && |payload.entries| > 0
         && forall k :: 0 <= k < |payload.entries| ==>
              payload.entries[k].key in c.editableFields && payload.entries[k].value.Str?
       else if c.provenance.Some? && operation == c.provenance.value.operationRef then
         && |payload.entries| == 1 && payload.entries[0].key == "journalTarget"
         && (payload.entries[0].value == Null || TargetOfItsClass(c.provenance.value, payload.entries[0].value))
       else operation == "operation.vexlife.draft-surface.seed.reset" && |payload.entries| == 0
  }

  /** Whether an operation is performed does not depend on the content. */
  lemma PerformedExactly(c: Contract, content: Content, operation: string, payload: Payload)
    ensures Perform(c, content, operation, payload).Applied? <==> Performable(c, operation, payload)
  {
    if c.provenance.Some? && payload.Object? && |payload.entries| == 1 {
      TargetExactly(c.provenance.value, payload.entries[0].value);
    }
  }

  /** A request is applied exactly when it addresses the draft, expects as many revisions as requests were
      applied before it, and asks for something the contract lets through. */
  lemma AppliedExactly(c: Contract, requests: seq<Request>, i: nat)
    requires i < |requests|
    ensures var log := Serve(RulesOf(c), requests).log;
            && |log| == |requests| && |log[..i]| == i
            && (log[i].disposition == APPLIED <==>
                  && requests[i].draftRef == Some(c.draftRef)
                  && requests[i].expectedRevision == Some(|AppliedOnly(requests[..i], log[..i])|)
                  && Performable(c, if requests[i].operationRef != "" then requests[i].operationRef
                                    else "operation.invalid", requests[i].payload))
  {
    JudgedByAppliedBefore(RulesOf(c), requests, i);
    ServeAt(RulesOf(c), requests, i);
    var before := AppliedOnly(requests[..i], Serve(RulesOf(c), requests).log[..i]);
    PerformedExactly(c, Fold(RulesOf(c), before).value, Operation(requests[i]), requests[i].payload);
  }

  lemma {:induction false} EntryForAt(entries: seq<Entry>, k: nat)
    requires WellFormed(Object(entries)) && AllText(entries) && k < |entries|
    ensures EntryFor(entries, entries[k].key) == Some(entries[k].value.s)
    decreases |entries|
  {
    var init := entries[..|entries|-1];
    if k < |init| {
      assert entries[k] == init[k];
      EntryForAt(init, k);
    }
  }

  /** The draft after a patch in its own fields: each named field holds the text of its entry, except that the
      platform list is not a text field and stays; every other field stays as it was. */
  ghost predicate PatchedTo(entries: seq<Entry>, before: Draft, after: Draft)
    requires AllText(entries)
  {
    && after.platformRefs == before.platformRefs
    && (forall k :: 0 <= k < |entries| && entries[k].key != PLATFORMS ==>
          && entries[k].key in after.fields
          && after.fields[entries[k].key] == entries[k].value.s)
    && (forall key :: key == PLATFORMS || (forall k :: 0 <= k < |entries| ==> entries[k].key != key) ==>
          && (key in after.fields <==> key in before.fields)
          && (key in after.fields ==> after.fields[key] == before.fields[key]))
  }

  lemma {:induction false} PatchedPlatforms(d: Draft, entries: seq<Entry>)
    ensures var p := Patched(d, entries);
            && p.platformRefs == d.platformRefs
            && (PLATFORMS in p.fields <==> PLATFORMS in d.fields)
            && (PLATFORMS in p.fields ==> p.fields[PLATFORMS] == d.fields[PLATFORMS])
  {
    if entries != [] {
      PatchedPlatforms(d, entries[..|entries|-1]);
    }
  }

  lemma PatchedExactly(d: Draft, entries: seq<Entry>)
    requires WellFormed(Object(entries)) && AllText(entries)
    ensures PatchedTo(entries, d, Patched(d, entries))
  {
    PatchedPlatforms(d, entries);
    forall k | 0 <= k < |entries| && entries[k].key != PLATFORMS
      ensures && entries[k].key in Patched(d, entries).fields
              && Patched(d, entries).fields[entries[k].key] == entries[k].value.s
    {
      EntryForAt(entries, k);
      PatchValue(d, entries, entries[k].key);
    }
    forall key | key != PLATFORMS && forall k :: 0 <= k < |entries| ==> entries[k].key != key
      ensures ValueOf(Patched(d, entries), key) == ValueOf(d, key)
    {
      EntryForKeys(entries, key);
      PatchValue(d, entries, key);
    }
  }

  /** Only editable fields ever leave their empty value. */
  ghost predicate OnlyEdited(c: Contract, d: Draft) {
    forall key :: key !in c.editableFields || key == PLATFORMS ==> ValueOf(d, key) == ValueOf(EMPTY_DRAFT, key)
  }

  lemma PerformOnlyEdits(c: Contract, content: Content, operation: string, payload: Payload)
    requires OnlyEdited(c, content.draft)
    requires Perform(c, content, operation, payload).Applied?
    ensures OnlyEdited(c, Perform(c, content, operation, payload).content.draft)
  {
    if operation == PATCH {
      var entries, d := payload.entries, content.draft;
      forall key | key !in c.editableFields || key == PLATFORMS
        ensures ValueOf(Patched(d, entries), key) == ValueOf(EMPTY_DRAFT, key)
      {
        PatchValue(d, entries, key);
        EntryForKeys(entries, key);
        if key in Keys(entries) {
          var i :| 0 <= i < |Keys(entries)| && Keys(entries)[i] == key;
          assert entries[i].key == key;
        }
      }
    }
  }

  lemma {:induction false} ServeOnlyEdits(c: Contract, requests: seq<Request>)
    ensures OnlyEdited(c, Serve(RulesOf(c), requests).state.content.draft)
  {
    if requests != [] {
      var init, r := requests[..|requests|-1], requests[|requests|-1];
      ServeOnlyEdits(c, init);
      var s := Serve(RulesOf(c), init).state;
      if Disposes(RulesOf(c), s, r) == APPLIED {
        PerformOnlyEdits(c, s.content, Operation(r), r.payload);
      }
    }
  }

  lemma {:induction false} ResetChange(d: Draft, editable: seq<string>, key: string)
    ensures key in ResetChanges(d, editable) <==> key in editable && (key == PLATFORMS || Differs(d, EMPTY_DRAFT, key))
  {
    if editable != [] {
      ResetChange(d, editable[..|editable|-1], key);
      assert editable == editable[..|editable|-1] + [editable[|editable|-1]];
    }
  }

  lemma ResetReports(c: Contract, d: Draft)
    requires OnlyEdited(c, d)
    ensures Reports(ResetChanges(d, c.editableFields), d, EMPTY_DRAFT) <==> PLATFORMS !in c.editableFields
  {
    if PLATFORMS in c.editableFields {
      ResetChange(d, c.editableFields, PLATFORMS);
      assert PLATFORMS in ResetChanges(d, c.editableFields) && !Differs(d, EMPTY_DRAFT, PLATFORMS);
    } else {
      forall key ensures key in ResetChanges(d, c.editableFields) <==> Differs(d, EMPTY_DRAFT, key) {
        ResetChange(d, c.editableFields, key);
      }
    }
  }

  /** The changed fields of a reset are the real difference, in every reachable state, exactly when the
      platform list is not declared editable. */
  lemma ResetReportsDifference(c: Contract, requests: seq<Request>)
    ensures var d := Serve(RulesOf(c), requests).state.content.draft;
            Reports(ResetChanges(d, c.editableFields), d, EMPTY_DRAFT) <==> PLATFORMS !in c.editableFields
  {
    ServeOnlyEdits(c, requests);
    ResetReports(c, Serve(RulesOf(c), requests).state.content.draft);
  }

  /** What an applied operation makes of a draft and a journal link, and which fields it reports. */
  ghost predicate Performed(c: Contract, operation: string, payload: Payload, before: Content, after: Content,
                            changed: seq<string>)
  {
    && payload.Object?
    && if operation == PATCH then
         && AllText(payload.entries) && PatchedTo(payload.entries, before.draft, after.draft)
         && after.journal == before.journal
         && (Reports(changed, before.draft, after.draft) <==>
               forall k :: 0 <= k < |payload.entries| ==> payload.entries[k].key != PLATFORMS)
       else if c.provenance.Some? && operation == c.provenance.value.operationRef then
         && payload.entries != [] && after.draft == before.draft
         && after.journal == (if payload.entries[0].value == Null then None else Some(payload.entries[0].value))
         && changed == [c.provenance.value.changedFieldRef]
       else
         && operation == RESET && after.journal == before.journal
         && after.draft == Draft(map["featureRef" := "", "purpose" := ""], ["platform.browser"])
         && (Reports(changed, before.draft, after.draft) <==> PLATFORMS !in c.editableFields)
  }

  lemma PatchPerforms(c: Contract, content: Content, payload: Payload)
    requires WellFormed(payload) && Perform(c, content, PATCH, payload).Applied?
    ensures var effect := Perform(c, content, PATCH, payload);
            Performed(c, PATCH, payload, content, effect.content, effect.changed)
  {
    var entries := payload.entries;
    PatchedExactly(content.draft, entries);
    PatchReportsDifference(c, content.draft, entries);
    assert PLATFORMS in Keys(entries) <==> exists k :: 0 <= k < |entries| && entries[k].key == PLATFORMS by {
      forall k | 0 <= k < |entries| ensures Keys(entries)[k] == entries[k].key {
      }
    }
  }

  lemma OperationPerforms(c: Contract, content: Content, operation: string, payload: Payload)
    requires WellFormed(payload) && Perform(c, content, operation, payload).Applied?
    requires OnlyEdited(c, content.draft)
    ensures var effect := Perform(c, content, operation, payload);
            Performed(c, operation, payload, content, effect.content, effect.changed)
  {
    if operation == PATCH {
      PatchPerforms(c, content, payload);
    } else {
      ResetReports(c, content.draft);
    }
  }

  /** An applied request leaves what its operation made of the content. */
  lemma AppliedTransacts(c: Rules, init: seq<Request>, r: Request, receipt: Receipt)
    requires receipt == ReceiptFor(c, Serve(c, init).state, r) && receipt.disposition == APPLIED
    ensures c.perform(Serve(c, init).state.content, receipt.operationRef, r.payload) ==
              Applied(Serve(c, init + [r]).state.content, receipt.changedFieldRefs)
  {
    ServeSnoc(c, init, r);
  }

  /** What a request that is applied after others does to the draft and the journal link, and what its receipt,
      the next one in the log, reports. */
  lemma AppliedEffect(c: Contract, init: seq<Request>, r: Request)
    requires WellFormed(r.payload)
    ensures var before, after := Serve(RulesOf(c), init), Serve(RulesOf(c), init + [r]);
            && |before.log| == |init| && |after.log| == |init| + 1 && after.log[..|init|] == before.log
            && var receipt := after.log[|init|];
               receipt.disposition == APPLIED ==>
                 Performed(c, receipt.operationRef, r.payload, before.state.content, after.state.content,
                           receipt.changedFieldRefs)
  {
    var rules := RulesOf(c);
    LogLength(rules, init);
    ServeSnoc(rules, init, r);
    var s := Serve(rules, init).state;
    var receipt := ReceiptFor(rules, s, r);
    if receipt.disposition == APPLIED {
      AppliedTransacts(rules, init, r, receipt);
      ServeOnlyEdits(c, init);
      OperationPerforms(c, s.content, receipt.operationRef, r.payload);
    }
  }

  /** What one call undoes: a reset applied after anything gives the empty draft and keeps the journal link;
      clearing the link keeps the draft. */
  lemma ResetClears(c: Contract, s: State, r: Request)
    requires r.operationRef == RESET && Disposes(RulesOf(c), s, r) == APPLIED
    requires c.provenance.Some? ==> c.provenance.value.operationRef != RESET
    ensures Transact(RulesOf(c), s, r).content == Content(EMPTY_DRAFT, s.content.journal)
  {
  }

  /** A target that is linked is an object with exactly the declared fields of its class. */
  lemma LinkedTargetExact(p: Provenance, v: Json)
    requires JournalTargetValid(p, v)
    requires var fields := p.variants[v.members[p.targetClassField].s];
             forall i, j :: 0 <= i < j < |fields| ==> fields[i] != fields[j]
    ensures v.members.Keys == (set key | key in p.variants[v.members[p.targetClassField].s])
  {
    var fields := p.variants[v.members[p.targetClassField].s];
    DistinctSize(fields);
    SubsetSameSize((set key | key in fields), v.members.Keys);
  }

  lemma {:induction false} DistinctSize(fields: seq<string>)
    requires forall i, j :: 0 <= i < j < |fields| ==> fields[i] != fields[j]
    ensures |(set key | key in fields)| == |fields|
  {
    if fields != [] {
      var init, last := fields[..|fields|-1], fields[|fields|-1];
      DistinctSize(init);
      assert (set key | key in fields) == (set key | key in init) + {last};
    }
  }

  lemma SubsetSameSize(a: set<string>, b: set<string>)
    requires a <= b && |a| == |b|
    ensures a == b
  {
    assert b == a + (b - a);
    assert |b - a| == 0;
  }

  // ----- the session object -----

  class Session {
    const contract: Rules
    var draft: Draft
    var draftRevision: nat
    var draftReceipts: seq<Receipt>
    var draftReceiptOrdinal: nat
    var draftTransactionOrdinal: nat
    var journalLinked: bool
    var journalTarget: Option<Json>
    ghost var served: seq<Request>  // every request so far
    ghost var log: seq<Receipt>     // every receipt so far

    ghost function View(): State
      reads this
    {
      State(Content(draft, journalTarget), journalLinked, draftRevision, draftReceipts,
            draftReceiptOrdinal, draftTransactionOrdinal)
    }

    ghost predicate Valid()
      reads this
    {
      Serve(contract, served) == History(View(), log)
    }

    constructor (c: Rules)
      ensures Valid() && contract == c && served == []
    {
      contract := c;
      draft, draftRevision, draftReceipts := EMPTY_DRAFT, 0, [];
      draftReceiptOrdinal, draftTransactionOrdinal := 0, 0;
      journalLinked, journalTarget := false, None;
      served, log := [], [];
    }

    method RecordReceipt(transactionRef: TransactionRef, operationRef: string, priorRevision: nat,
                         changedFieldRefs: seq<string>, disposition: Disposition)
      returns (receipt: Receipt)
      modifies this
      ensures receipt == Receipt(old(draftReceiptOrdinal) + 1, transactionRef, operationRef, priorRevision,
                                 old(draftRevision), changedFieldRefs, disposition)
      ensures View() == old(View()).(receipts := SliceFrom(old(draftReceipts) + [receipt], -contract.historyLimit),
                                     receiptOrdinal := old(draftReceiptOrdinal) + 1)
      ensures log == old(log) + [receipt] && served == old(served)
    {
      draftReceiptOrdinal := draftReceiptOrdinal + 1;
      receipt := Receipt(draftReceiptOrdinal, transactionRef, operationRef, priorRevision, draftRevision,
                         changedFieldRefs, disposition);
      draftReceipts := SliceFrom(draftReceipts + [receipt], -contract.historyLimit);
      log := log + [receipt];
    }

    /** The reference given, or the next one generated. */
    method NextReference(request: Request) returns (transactionRef: TransactionRef)
      modifies this`draftTransactionOrdinal
      ensures transactionRef == RefFor(old(View()), request) && View() == Referenced(old(View()), request)
    {
      if request.transactionRef.Some? {
        return Given(request.transactionRef.value);
      }
      draftTransactionOrdinal := draftTransactionOrdinal + 1;
      return Generated(draftTransactionOrdinal);
    }

    /** An operation that was performed: the new content, the next revision, and its receipt. */
    method Commit(effect: Effect, transactionRef: TransactionRef, operationRef: string) returns (receipt: Receipt)
      requires effect.Applied?
      modifies this
      ensures receipt == Receipt(old(draftReceiptOrdinal) + 1, transactionRef, operationRef, old(draftRevision),
                                 old(draftRevision) + 1, effect.changed, APPLIED)
      ensures View() == State(effect.content, effect.content.journal.Some?, old(draftRevision) + 1,
                              SliceFrom(old(draftReceipts) + [receipt], -contract.historyLimit),
                              old(draftReceiptOrdinal) + 1, old(draftTransactionOrdinal))
      ensures log == old(log) + [receipt] && served == old(served)
    {
      var priorRevision := draftRevision;
      draft := effect.content.draft;
      journalTarget := effect.content.journal;
      journalLinked := journalTarget.Some?;
      draftRevision := priorRevision + 1;
      receipt := RecordReceipt(transactionRef, operationRef, priorRevision, effect.changed, APPLIED);
    }

    /** The operation was refused or performed. */
    method TakeEffect(effect: Effect, transactionRef: TransactionRef, operationRef: string) returns (receipt: Receipt)
      requires journalLinked == journalTarget.Some?
      modifies this
      ensures var applied := effect.Applied?;
              var content := if applied then effect.content else old(View()).content;
              var revision := if applied then old(draftRevision) + 1 else old(draftRevision);
              && receipt == Receipt(old(draftReceiptOrdinal) + 1, transactionRef, operationRef, old(draftRevision), revision,
                                    if applied then effect.changed else [], if applied then APPLIED else INVALID_REJECTED)
              && View() == State(content, content.journal.Some?, revision,
                                 SliceFrom(old(draftReceipts) + [receipt], -contract.historyLimit),
                                 old(draftReceiptOrdinal) + 1, old(draftTransactionOrdinal))
      ensures log == old(log) + [receipt] && served == old(served)
    {
      if effect.Rejected? {
        receipt := RecordReceipt(transactionRef, operationRef, draftRevision, [], INVALID_REJECTED);
      } else {
        receipt := Commit(effect, transactionRef, operationRef);
      }
    }

    /** The branches of the transaction, on the fields. */
    method Dispose(request: Request, transactionRef: TransactionRef, operationRef: string) returns (receipt: Receipt)
      requires journalLinked == journalTarget.Some?
      modifies this
      ensures receipt == ReceiptAs(contract, old(View()), request, transactionRef, operationRef)
      ensures View() == TransactAs(contract, old(View()), request, transactionRef, operationRef)
      ensures log == old(log) + [receipt] && served == old(served)
    {
      var priorRevision := draftRevision;
      if !Addressed(contract, request) {
        receipt := RecordReceipt(transactionRef, operationRef, priorRevision, [], INVALID_REJECTED);
      } else if request.expectedRevision.value != priorRevision {
        receipt := RecordReceipt(transactionRef, operationRef, priorRevision, [], STALE_REJECTED);
      } else {
        var effect := contract.perform(Content(draft, journalTarget), operationRef, request.payload);
        receipt := TakeEffect(effect, transactionRef, operationRef);
      }
    }

    /** The transaction itself, on the fields. */
    method Execute(request: Request) returns (receipt: Receipt)
      requires journalLinked == journalTarget.Some?
      modifies this
      ensures receipt == ReceiptFor(contract, old(View()), request)
      ensures View() == Transact(contract, old(View()), request)
      ensures log == old(log) + [receipt] && served == old(served)
    {
      var transactionRef := NextReference(request);
      receipt := Dispose(request, transactionRef, Operation(request));
    }

    /** One transaction. The session stays the history of all requests served. A request that expects another
        revision than the current one is stale; whatever is not applied leaves draft, link and revision alone. */
    method TransactDraft(request: Request) returns (receipt: Receipt)
      requires Valid()
      modifies this
      ensures Valid() && served == old(served) + [request] && log == old(log) + [receipt]
      ensures receipt == ReceiptFor(contract, old(View()), request)
      ensures receipt.disposition == STALE_REJECTED <==>
                && request.draftRef == Some(contract.draftRef) && request.expectedRevision.Some?
                && 0 <= request.expectedRevision.value && request.expectedRevision.value != old(draftRevision)
      ensures receipt.disposition == APPLIED ==>
                && request.draftRef == Some(contract.draftRef)
                && request.expectedRevision == Some(old(draftRevision)) && draftRevision == old(draftRevision) + 1
      ensures receipt.disposition != APPLIED ==>
                && draft == old(draft) && journalTarget == old(journalTarget) && draftRevision == old(draftRevision)
    {
      ServeLinked(contract, served);
      ServeSnoc(contract, served, request);
      receipt := Execute(request);
      served := served + [request];
    }
  }

  lemma {:induction false} ServeLinked(c: Rules, requests: seq<Request>)
    ensures Serve(c, requests).state.linked == Serve(c, requests).state.content.journal.Some?
  {
    if requests != [] {
      assert Serve(c, requests).state == Transact(c, Serve(c, requests[..|requests|-1]).state, requests[|requests|-1]);
    }
  }
}
