/** Message ingestion: an inbound message is stored once per idempotency key, a reply is generated for
    it, and a `sendMessage` action is queued; plus the batch job that re-drives unanswered messages. */
module MessageMonitor {
  import opened Common
  import opened Query
  import opened ActionModel
  import opened MessageModel
  import opened Store

  /** What the reply generator returned for one call: a text, or an error. */
  datatype Generated = Text(text: string) | GenerationFailed

  /** The body of `POST /api/messages/incoming`; an empty string is a missing field. */
  datatype IncomingRequest = IncomingRequest(
    clientId: RawId,
    accountId: RawId,
    conversationId: string,
    senderName: string,
    incomingText: string,
    idempotencyKey: string)

  /** The answer to an ingestion: the stored message, and the queued action if this call created one. */
  datatype Ingested = Ingested(messageId: Id, actionId: Option<Id>)

  predicate MissingField(req: IncomingRequest) {
    || req.clientId.Absent? || req.accountId.Absent? || req.conversationId == "" || req.senderName == ""
    || req.incomingText == "" || req.idempotencyKey == ""
  }

  /** The checks made before any message is read or written, in the handler's order, with the status
      each failure answers. Only a request that names a well-formed client of a well-formed account,
      which owns that client and has AI replies enabled for it, gets through. */
  function Screen(req: IncomingRequest, clients: map<Id, Client>): (refusal: Option<(nat, Reason)>)
    ensures refusal.None? <==>
              && !MissingField(req) && req.accountId.Wellformed? && req.clientId.Wellformed?
              && OwnsClient(clients, req.clientId.id, req.accountId.id)
              && clients[req.clientId.id].aiActive
    ensures refusal.Some? && refusal.value.1 == ClientNotFound <==>
              && !MissingField(req) && req.accountId.Wellformed? && req.clientId.Wellformed?
              && !OwnsClient(clients, req.clientId.id, req.accountId.id)
    ensures refusal.Some? ==> refusal.value.0 == (if refusal.value.1 == ClientNotFound then 404 else 400)
  {
    if MissingField(req) then Some((400, FieldsRequired))
    else if req.accountId.Malformed? then Some((400, InvalidAccountId))
    else if req.clientId.Malformed? then Some((400, InvalidClientId))
    else if !OwnsClient(clients, req.clientId.id, req.accountId.id) then Some((404, ClientNotFound))
    else if !clients[req.clientId.id].aiActive then Some((400, AiDisabled))
    else None
  }

  /** The message table once a concurrent delivery has stored its own message, if it could. */
  function AfterRace(messages: seq<Message>, raced: Option<Message>): seq<Message> {
    if raced.Some? && FindByKey(messages, raced.value.accountId, raced.value.idempotencyKey).None?
    then messages + [raced.value] else messages
  }

  /** The message an accepted request stores before a reply is generated. */
  function Received(req: IncomingRequest, now: Time): Message
    requires req.clientId.Wellformed? && req.accountId.Wellformed?
  {
    NewMessage(req.clientId.id, req.accountId.id, req.conversationId, req.senderName, req.incomingText, now,
               req.idempotencyKey).(replyStatus := Queued)
  }

  /** The action that sends a generated reply into its conversation. */
  function SendAction(accountId: Id, clientId: Id, conversationId: string, replyText: string, now: Time): (a: Action)
    ensures a.status == Pending && a.kind == SendMessage && LockConsistent(a) && a.attemptCount == 0
    ensures a.accountId == accountId && a.clientId == clientId
    ensures a.payload == Payload(conversationId, replyText)
    ensures a.nextRunAt == None && a.createdAt == now
    ensures a.lastErrorCode == None && a.lastErrorMessage == None
  {
    NewAction(accountId, clientId, SendMessage, Payload(conversationId, replyText), now)
  }

  /** `POST /api/messages/incoming`. `reply` is what the generator answers if it is called; `raced` is a
      message that a concurrent delivery stores between this call's duplicate check and its insert
      (`None` when nothing runs concurrently). */
  method HandleIncomingMessage(db: Db, req: IncomingRequest, now: Time, reply: Generated, raced: Option<Message>)
    returns (r: Response<Ingested>)
    requires db.Valid()
    requires raced.Some? ==> HasRequiredFields(raced.value)
    modifies db
    ensures db.Valid()
    ensures Evolves(old(db.actions), db.actions)
    // Refused before the message table is read: nothing is stored, only an ownership failure is audited.
    ensures Screen(req, old(db.clients)).Some? ==>
              var refusal := Screen(req, old(db.clients)).value;
              && r == Err(refusal.0, refusal.1)
              && db.actions == old(db.actions) && db.messages == old(db.messages) && db.clients == old(db.clients)
              && db.audit == old(db.audit) +
                   (if refusal.1 == ClientNotFound
                    then [CrossAccountAccess(req.accountId.id, ClientResource, req.clientId.id)] else [])
    ensures Screen(req, old(db.clients)).None? ==> db.audit == old(db.audit)
    // A key already stored for the account: the stored message is named, nothing changes.
    ensures Screen(req, old(db.clients)).None? &&
            FindByKey(old(db.messages), req.accountId.id, req.idempotencyKey).Some? ==>
              && r == Ok(Ingested(FindByKey(old(db.messages), req.accountId.id, req.idempotencyKey).value, None))
              && db.actions == old(db.actions) && db.messages == old(db.messages) && db.clients == old(db.clients)
    // A new key: see `Admit`.
    ensures Screen(req, old(db.clients)).None? &&
            FindByKey(old(db.messages), req.accountId.id, req.idempotencyKey).None? ==>
              Admitted(AfterRace(old(db.messages), raced), old(db.actions), old(db.clients), req, now, reply,
                       r, db.messages, db.actions, db.clients)
    // Whenever the request got through the checks, the message table holds its key, and a successful
    // answer names that message.
    ensures Screen(req, old(db.clients)).None? ==>
              && FindByKey(db.messages, req.accountId.id, req.idempotencyKey).Some?
              && (r.Ok? ==> FindByKey(db.messages, req.accountId.id, req.idempotencyKey) == Some(r.body.messageId))
  {
    var refusal := Screen(req, db.clients);
    if refusal.Some? {
      if refusal.value.1 == ClientNotFound {
        db.audit := db.audit + [CrossAccountAccess(req.accountId.id, ClientResource, req.clientId.id)];
      }
      return Err(refusal.value.0, refusal.value.1);
    }
    var existing := FindByKey(db.messages, req.accountId.id, req.idempotencyKey);
    if existing.Some? {
      return Ok(Ingested(existing.value, None));
    }
    r := Admit(db, req, now, reply, raced);
  }

  /** What ingesting a new key leaves behind, from the tables as the insert finds them (`messages`,
      `actions`, `clients`) to the answer and the tables after. If the message table already holds the
      key (a concurrent delivery took it first), the call answers like a duplicate; otherwise the message is stored as queued and the reply decides:
      with no usable reply it is marked failed and the call answers 500; with one, the reply is stored
      on the message, the client's counter goes up by one and a `sendMessage` action is queued. */
  ghost predicate Admitted(base: seq<Message>, actions: seq<Action>, clients: map<Id, Client>,
                           req: IncomingRequest, now: Time, reply: Generated,
                           r: Response<Ingested>, messages': seq<Message>, actions': seq<Action>,
                           clients': map<Id, Client>)
    requires req.clientId.Wellformed? && req.accountId.Wellformed? && req.clientId.id in clients
  {
    var winner := FindByKey(base, req.accountId.id, req.idempotencyKey);
    var stored := Received(req, now);
    var cid := req.clientId.id;
    if winner.Some? then
      && r == Ok(Ingested(winner.value, None))
      && actions' == actions && messages' == base && clients' == clients
    else if reply.GenerationFailed? || reply.text == "" then
      && r == Err(500, ReplyGenerationFailed)
      && messages' == base + [stored.(replyStatus := ReplyFailed)]
      && actions' == actions && clients' == clients
    else
      && r == Ok(Ingested(|base|, Some(|actions|)))
      && messages' == base + [stored.(replyText := Some(reply.text))]
      && actions' == actions + [SendAction(req.accountId.id, cid, req.conversationId, reply.text, now)]
      && clients' == Credit(clients, cid, 1)
  }

  /** The part of the handler after the duplicate check found nothing. */
  method Admit(db: Db, req: IncomingRequest, now: Time, reply: Generated, raced: Option<Message>)
    returns (r: Response<Ingested>)
    requires db.Valid()
    requires raced.Some? ==> HasRequiredFields(raced.value)
    requires Screen(req, db.clients).None?
    modifies db
    ensures db.Valid() && db.audit == old(db.audit)
    ensures Admitted(AfterRace(old(db.messages), raced), old(db.actions), old(db.clients), req, now, reply,
                     r, db.messages, db.actions, db.clients)
    ensures Evolves(old(db.actions), db.actions)
    ensures FindByKey(db.messages, req.accountId.id, req.idempotencyKey).Some?
    ensures r.Ok? ==> FindByKey(db.messages, req.accountId.id, req.idempotencyKey) == Some(r.body.messageId)
  {
    if raced.Some? {
      var _ := db.CreateMessage(raced.value);
    }
    r := CreateAndReply(db, req, now, reply);
  }

  /** The insert under the unique index, then the reply. */
  method CreateAndReply(db: Db, req: IncomingRequest, now: Time, reply: Generated)
    returns (r: Response<Ingested>)
    requires db.Valid()
    requires Screen(req, db.clients).None?
    modifies db
    ensures db.Valid() && db.audit == old(db.audit)
    ensures Admitted(old(db.messages), old(db.actions), old(db.clients), req, now, reply,
                     r, db.messages, db.actions, db.clients)
    ensures Evolves(old(db.actions), db.actions)
    ensures FindByKey(db.messages, req.accountId.id, req.idempotencyKey).Some?
    ensures r.Ok? ==> FindByKey(db.messages, req.accountId.id, req.idempotencyKey) == Some(r.body.messageId)
  {
    ghost var base := db.messages;
    var stored := Received(req, now);
    var created := db.CreateMessage(stored);
    if created.None? {
      // the unique index refused the insert: answer as the already-processed branch
      var winner := FindByKey(db.messages, req.accountId.id, req.idempotencyKey);
      return Ok(Ingested(winner.value, None));
    }
    r := RecordReply(db, req, created.value, now, reply);
    assert forall m :: (base + [stored])[|base| := m] == base + [m];
  }

  /** Stores the outcome of reply generation on the message just created under id `mid`. */
  method RecordReply(db: Db, req: IncomingRequest, mid: Id, now: Time, reply: Generated)
    returns (r: Response<Ingested>)
    requires db.Valid()
    requires Screen(req, db.clients).None?
    requires mid + 1 == |db.messages| && db.messages[mid] == Received(req, now)
    modifies db
    ensures db.Valid() && db.audit == old(db.audit)
    ensures var stored := Received(req, now);
            var cid := req.clientId.id;
            if reply.GenerationFailed? || reply.text == "" then
              && r == Err(500, ReplyGenerationFailed)
              && db.messages == old(db.messages)[mid := stored.(replyStatus := ReplyFailed)]
              && db.actions == old(db.actions) && db.clients == old(db.clients)
            else
              && r == Ok(Ingested(mid, Some(|old(db.actions)|)))
              && db.messages == old(db.messages)[mid := stored.(replyText := Some(reply.text))]
              && db.actions == old(db.actions) + [SendAction(req.accountId.id, cid, req.conversationId, reply.text, now)]
              && db.clients == Credit(old(db.clients), cid, 1)
    ensures FindByKey(db.messages, req.accountId.id, req.idempotencyKey) == Some(mid)
  {
    var stored := Received(req, now);
    var cid := req.clientId.id;
    if reply.GenerationFailed? || reply.text == "" {
      RewriteKeepsUnique(db.messages, db.messages[mid := stored.(replyStatus := ReplyFailed)]);
      db.messages := db.messages[mid := stored.(replyStatus := ReplyFailed)];
      LookupIsExact(db.messages, req.accountId.id, req.idempotencyKey, mid);
      return Err(500, ReplyGenerationFailed);
    }
    RewriteKeepsUnique(db.messages, db.messages[mid := stored.(replyText := Some(reply.text))]);
    db.messages := db.messages[mid := stored.(replyText := Some(reply.text))];
    LookupIsExact(db.messages, req.accountId.id, req.idempotencyKey, mid);
    db.clients := Credit(db.clients, cid, 1);
    var aid := db.CreateAction(SendAction(req.accountId.id, cid, req.conversationId, reply.text, now));
    r := Ok(Ingested(mid, Some(aid)));
  }

  /** Delivering the same request twice stores at most one message and queues at most one action: the
      second delivery changes nothing and, when the first succeeded, names the same message; when the
      first failed to generate a reply, the second is answered as already processed. */
  method DeliverTwice(db: Db, req: IncomingRequest, now: Time, first: Generated, second: Generated)
    returns (r1: Response<Ingested>, r2: Response<Ingested>)
    requires db.Valid()
    modifies db
    ensures db.Valid()
    ensures |db.messages| <= |old(db.messages)| + 1 && |db.actions| <= |old(db.actions)| + 1
    ensures r1.Ok? ==> r2 == Ok(Ingested(r1.body.messageId, None))
    ensures r1.Ok? && r1.body.actionId.Some? ==> |db.actions| == |old(db.actions)| + 1
    // A retry after a failed generation is answered as already processed and never generates a reply.
    ensures r1 == Err(500, ReplyGenerationFailed) ==>
              r2.Ok? && r2.body.actionId.None? && db.actions == old(db.actions)
  {
    r1 := HandleIncomingMessage(db, req, now, first, None);
    ghost var midMessages, midActions := db.messages, db.actions;
    r2 := HandleIncomingMessage(db, req, now, second, None);
    assert db.messages == midMessages && db.actions == midActions;
  }

  // ---------------------------------------------------------------------------------------------
  // Re-driving unanswered messages

  const PENDING_BATCH_LIMIT: nat := 50

  /** The answer of the batch job: nothing to do, or how many replies were queued and how many failed. */
  datatype PendingReport = NothingPending | Processed(processed: nat, failed: nat, total: nat)

  /** A message of the client and account that has no reply out yet: none was made, one is queued, or
      the last attempt failed. */
  predicate NeedsReply(m: Message, clientId: Id, accountId: Id) {
    m.clientId == clientId && m.accountId == accountId && m.replyStatus in {NoReply, Queued, ReplyFailed}
  }

  /** `find({clientId, accountId, replyStatus: {none|queued|failed}}).sort({receivedAt: 1}).limit(50)`. */
  function PendingBatch(messages: seq<Message>, clientId: Id, accountId: Id): (batch: seq<Id>)
    ensures |batch| <= PENDING_BATCH_LIMIT
    ensures forall k :: 0 <= k < |batch| ==> batch[k] < |messages| && NeedsReply(messages[batch[k]], clientId, accountId)
    ensures Distinct(batch)
    ensures forall j, k :: 0 <= j < k < |batch| ==> messages[batch[j]].receivedAt <= messages[batch[k]].receivedAt
    ensures forall i :: 0 <= i < |messages| && NeedsReply(messages[i], clientId, accountId) && i !in batch ==>
              |batch| == PENDING_BATCH_LIMIT &&
              forall k :: 0 <= k < |batch| ==> messages[batch[k]].receivedAt <= messages[i].receivedAt
  {
    var key := (m: Message) => m.receivedAt;
    var batch := FindSorted(messages, (m: Message) => NeedsReply(m, clientId, accountId), key, PENDING_BATCH_LIMIT);
    assert SortedBy(messages, key, batch);
    batch
  }

  /** Tenant isolation of the batch job: re-driving the batch leaves every message of another client or
      another account exactly as it was, and so does the whole run. */
  lemma {:induction false} BatchStaysWithClient(messages: seq<Message>, cid: Id, accountId: Id,
                                                replyFor: Id -> Generated, i: nat)
    requires i < |messages|
    requires messages[i].clientId != cid || messages[i].accountId != accountId
    ensures RedriveSome(messages, PendingBatch(messages, cid, accountId), replyFor)[i] == messages[i]
  {
    var batch := PendingBatch(messages, cid, accountId);
    forall k | 0 <= k < |batch|
      ensures batch[k] != i
    {
      assert NeedsReply(messages[batch[k]], cid, accountId);
    }
    assert i !in batch;
  }

  /** The batch job also selects messages whose reply is already queued with a pending action, so it
      queues a second `sendMessage` action for such a message: a message alone in the table with a
      queued reply is the whole batch, and a reply for it adds one action. */
  lemma QueuedMessageIsRedriven(m: Message, replyFor: Id -> Generated, now: Time)
    requires m.replyStatus == Queued && replyFor(0).Text?
    ensures PendingBatch([m], m.clientId, m.accountId) == [0]
    ensures |ReplyActions([m], [0], replyFor, m.accountId, m.clientId, now)| == 1
  {
    var batch := PendingBatch([m], m.clientId, m.accountId);
    assert NeedsReply([m][0], m.clientId, m.accountId);
    assert forall k :: 0 <= k < |batch| ==> batch[k] == 0;
    DistinctCardinality(batch);
    assert Elements(batch) == {0};
    assert batch == [0];
  }

  /** The batch job has no empty-reply check of its own: an empty text from the generator is stored as the
      reply and sent like any other. */
  lemma EmptyReplyIsSent(messages: seq<Message>, batch: seq<Id>, replyFor: Id -> Generated, accountId: Id,
                         cid: Id, now: Time, i: Id)
    requires InRange(messages, batch) && i in batch && replyFor(i) == Text("")
    ensures i < |messages|
    ensures RedriveSome(messages, batch, replyFor)[i].replyStatus == Queued
    ensures RedriveSome(messages, batch, replyFor)[i].replyText == Some("")
    ensures exists k :: 0 <= k < |ReplyActions(messages, batch, replyFor, accountId, cid, now)| &&
                        ReplyActions(messages, batch, replyFor, accountId, cid, now)[k].payload ==
                          Payload(messages[i].conversationId, "")
  {
    var ids := Replied(batch, replyFor);
    var acts := ReplyActions(messages, batch, replyFor, accountId, cid, now);
    var k :| 0 <= k < |ids| && ids[k] == i;
    assert acts[k].payload == Payload(messages[i].conversationId, "");
  }

  /** One message after its re-drive: the new reply queued, or the attempt marked failed. */
  function Redrive(m: Message, g: Generated): (r: Message)
    ensures r.(replyText := m.replyText, replyStatus := m.replyStatus) == m
    ensures g.Text? ==> r.replyText == Some(g.text) && r.replyStatus == Queued
    ensures g.GenerationFailed? ==> r.replyText == m.replyText && r.replyStatus == ReplyFailed
  {
    match g
    case Text(t) => m.(replyText := Some(t), replyStatus := Queued)
    case GenerationFailed => m.(replyStatus := ReplyFailed)
  }

  /** The message table once the messages listed in `done` have been re-driven; no account, key or
      required field changes. */
  function RedriveSome(messages: seq<Message>, done: seq<Id>, replyFor: Id -> Generated): (r: seq<Message>)
    ensures |r| == |messages|
    ensures forall i :: 0 <= i < |messages| && i in done ==> r[i] == Redrive(messages[i], replyFor(i))
    ensures forall i :: 0 <= i < |messages| && i !in done ==> r[i] == messages[i]
    ensures UniqueKeys(messages) ==> UniqueKeys(r)
    ensures AllHaveRequiredFields(messages) ==> AllHaveRequiredFields(r)
  {
    var r := seq(|messages|, i requires 0 <= i < |messages| =>
      if i in done then Redrive(messages[i], replyFor(i)) else messages[i]);
    RewriteKeepsUnique(messages, r);
    r
  }

  /** The listed messages that got a reply, in batch order: exactly those the generator answered. */
  function Replied(done: seq<Id>, replyFor: Id -> Generated): (ids: seq<Id>)
    ensures |ids| <= |done|
    ensures forall k :: 0 <= k < |ids| ==> ids[k] in done && replyFor(ids[k]).Text?
    ensures forall j :: 0 <= j < |done| && replyFor(done[j]).Text? ==> done[j] in ids
    ensures Distinct(done) ==> Distinct(ids)
    ensures forall j, k :: 0 <= j < k < |ids| ==>
              exists p, q :: 0 <= p < q < |done| && done[p] == ids[j] && done[q] == ids[k]
  {
    if done == [] then []
    else
      var front := Replied(done[..|done| - 1], replyFor);
      var last := done[|done| - 1];
      if replyFor(last).Text? then front + [last] else front
  }

  /** Over a batch without repeats, the replies counted are the messages the generator answered. */
  lemma RepliedCount(done: seq<Id>, replyFor: Id -> Generated)
    requires Distinct(done)
    ensures |Replied(done, replyFor)| == |set i | i in done && replyFor(i).Text?|
  {
    var ids := Replied(done, replyFor);
    DistinctCardinality(ids);
    assert Elements(ids) == set i | i in done && replyFor(i).Text?;
  }

  /** The actions the batch job queues, in batch order: one pending `sendMessage` per message that got a
      reply, for the client and account, into that message's conversation. */
  function ReplyActions(messages: seq<Message>, done: seq<Id>, replyFor: Id -> Generated, accountId: Id,
                        clientId: Id, now: Time): (acts: seq<Action>)
    requires InRange(messages, done)
    ensures |acts| == |Replied(done, replyFor)|
    ensures forall k :: 0 <= k < |acts| ==>
              var id := Replied(done, replyFor)[k];
              acts[k].payload == Payload(messages[id].conversationId, replyFor(id).text)
    ensures forall k :: 0 <= k < |acts| ==>
              && acts[k].status == Pending && acts[k].kind == SendMessage && LockConsistent(acts[k])
              && acts[k].accountId == accountId && acts[k].clientId == clientId && acts[k].attemptCount == 0
  {
    if done == [] then []
    else
      var last := done[|done| - 1];
      var front := ReplyActions(messages, done[..|done| - 1], replyFor, accountId, clientId, now);
      match replyFor(last)
      case Text(t) => front + [SendAction(accountId, clientId, messages[last].conversationId, t, now)]
      case GenerationFailed => front
  }

  /** `POST /api/messages/process-pending` for the signed-in account. `replyFor(id)` is what the
      generator answers for message `id`. */
  method ProcessPendingMessages(db: Db, clientId: RawId, accountId: Id, replyFor: Id -> Generated, now: Time)
    returns (r: Response<PendingReport>)
    requires db.Valid()
    modifies db
    ensures db.Valid()
    ensures db.audit == old(db.audit)
    ensures Evolves(old(db.actions), db.actions)
    ensures clientId.Absent? ==> r == Err(400, ClientIdRequired)
    ensures clientId.Malformed? ==> r == Err(500, ServerError)
    ensures clientId.Wellformed? && !OwnsClient(old(db.clients), clientId.id, accountId) ==> r == Err(404, ClientNotFound)
    ensures (clientId.Wellformed? && OwnsClient(old(db.clients), clientId.id, accountId) &&
             !old(db.clients)[clientId.id].aiActive) ==> r == Err(400, AiDisabled)
    ensures r.Err? ==> db.actions == old(db.actions) && db.messages == old(db.messages) && db.clients == old(db.clients)
    ensures clientId.Wellformed? && OwnsClient(old(db.clients), clientId.id, accountId) &&
            old(db.clients)[clientId.id].aiActive ==>
              BatchRun(old(db.messages), old(db.actions), old(db.clients), clientId.id, accountId,
                       PendingBatch(old(db.messages), clientId.id, accountId), replyFor, now,
                       r, db.messages, db.actions, db.clients)
  {
    if clientId.Absent? {
      return Err(400, ClientIdRequired);
    }
    if clientId.Malformed? {
      // the id cannot be cast to an ObjectId, so the client lookup throws
      return Err(500, ServerError);
    }
    var cid := clientId.id;
    if !OwnsClient(db.clients, cid, accountId) {
      return Err(404, ClientNotFound);
    }
    if !db.clients[cid].aiActive {
      return Err(400, AiDisabled);
    }
    var batch := PendingBatch(db.messages, cid, accountId);
    r := RunBatch(db, cid, accountId, batch, replyFor, now);
  }

  /** What one run of the batch job over `batch` leaves behind for an enabled client it owns: with nothing
      pending it
      changes nothing; otherwise every message of the batch is re-driven, one action is queued per reply
      obtained, the client's reply counter goes up by that number, and the report counts the replies,
      the failures and the batch. */
  ghost predicate BatchRun(messages: seq<Message>, actions: seq<Action>, clients: map<Id, Client>, cid: Id,
                           accountId: Id, batch: seq<Id>, replyFor: Id -> Generated, now: Time,
                           r: Response<PendingReport>, messages': seq<Message>, actions': seq<Action>,
                           clients': map<Id, Client>)
    requires cid in clients && InRange(messages, batch)
  {
    var done := |Replied(batch, replyFor)|;
    if batch == [] then
      r == Ok(NothingPending) && messages' == messages && actions' == actions && clients' == clients
    else
      && r == Ok(Processed(done, |batch| - done, |batch|))
      && messages' == RedriveSome(messages, batch, replyFor)
      && actions' == actions + ReplyActions(messages, batch, replyFor, accountId, cid, now)
      && clients' == Credit(clients, cid, done)
  }

  /** The part of the batch job after the client checks. */
  method RunBatch(db: Db, cid: Id, accountId: Id, batch: seq<Id>, replyFor: Id -> Generated, now: Time)
    returns (r: Response<PendingReport>)
    requires db.Valid() && cid in db.clients && InRange(db.messages, batch) && Distinct(batch)
    modifies db
    ensures db.Valid() && db.audit == old(db.audit)
    ensures Evolves(old(db.actions), db.actions)
    ensures BatchRun(old(db.messages), old(db.actions), old(db.clients), cid, accountId, batch, replyFor, now,
                     r, db.messages, db.actions, db.clients)
  {
    if |batch| == 0 {
      return Ok(NothingPending);
    }
    var processed, failed := RedriveBatch(db, batch, accountId, cid, replyFor, now);
    db.clients := Credit(db.clients, cid, processed);
    r := Ok(Processed(processed, failed, |batch|));
  }

  /** The loop over the batch: each message gets a reply queued and an action, or is marked failed. */
  method RedriveBatch(db: Db, batch: seq<Id>, accountId: Id, cid: Id, replyFor: Id -> Generated, now: Time)
    returns (processed: nat, failed: nat)
    requires db.Valid() && InRange(db.messages, batch) && Distinct(batch)
    modifies db
    ensures db.Valid()
    ensures db.messages == RedriveSome(old(db.messages), batch, replyFor)
    ensures db.actions == old(db.actions) + ReplyActions(old(db.messages), batch, replyFor, accountId, cid, now)
    ensures Evolves(old(db.actions), db.actions)
    ensures processed == |Replied(batch, replyFor)| && processed + failed == |batch|
    ensures db.clients == old(db.clients) && db.audit == old(db.audit)
  {
    ghost var messages0, actions0 := db.messages, db.actions;
    processed, failed := 0, 0;
    for k := 0 to |batch|
      invariant db.messages == RedriveSome(messages0, batch[..k], replyFor)
      invariant db.actions == actions0 + ReplyActions(messages0, batch[..k], replyFor, accountId, cid, now)
      invariant processed == |Replied(batch[..k], replyFor)| && processed + failed == k
      invariant db.clients == old(db.clients) && db.audit == old(db.audit)
      invariant db.Valid()
    {
      var ok := RedriveStep(db, messages0, actions0, batch, k, accountId, cid, replyFor, now);
      if ok {
        processed := processed + 1;
      } else {
        failed := failed + 1;
      }
    }
    assert batch[..|batch|] == batch;
    AppendEvolves(actions0, ReplyActions(messages0, batch, replyFor, accountId, cid, now));
  }

  /** The body of the loop, for the `k`-th message of the batch. */
  method RedriveStep(db: Db, ghost messages0: seq<Message>, ghost actions0: seq<Action>, batch: seq<Id>, k: nat,
                     accountId: Id, cid: Id, replyFor: Id -> Generated, now: Time)
    returns (replied: bool)
    requires k < |batch| && InRange(messages0, batch) && Distinct(batch)
    requires db.Valid() && db.messages == RedriveSome(messages0, batch[..k], replyFor)
    requires db.actions == actions0 + ReplyActions(messages0, batch[..k], replyFor, accountId, cid, now)
    modifies db
    ensures db.Valid() && db.messages == RedriveSome(messages0, batch[..k + 1], replyFor)
    ensures db.actions == actions0 + ReplyActions(messages0, batch[..k + 1], replyFor, accountId, cid, now)
    ensures replied == replyFor(batch[k]).Text?
    ensures |Replied(batch[..k + 1], replyFor)| == |Replied(batch[..k], replyFor)| + (if replied then 1 else 0)
    ensures db.clients == old(db.clients) && db.audit == old(db.audit)
  {
    StepOneMore(messages0, batch, k, replyFor, accountId, cid, now);
    replied := RedriveOne(db, batch[k], accountId, cid, replyFor, now);
  }

  /** What the `k`-th iteration adds to the re-driven prefix of the batch. */
  lemma StepOneMore(messages: seq<Message>, batch: seq<Id>, k: nat, replyFor: Id -> Generated, accountId: Id,
                    cid: Id, now: Time)
    requires k < |batch| && InRange(messages, batch) && Distinct(batch)
    ensures batch[k] < |messages| && InRange(messages, batch[..k]) && InRange(messages, batch[..k + 1])
    ensures RedriveSome(messages, batch[..k], replyFor)[batch[k]] == messages[batch[k]]
    ensures RedriveSome(messages, batch[..k + 1], replyFor) ==
            RedriveSome(messages, batch[..k], replyFor)[batch[k] := Redrive(messages[batch[k]], replyFor(batch[k]))]
    ensures Replied(batch[..k + 1], replyFor) ==
            Replied(batch[..k], replyFor) + (if replyFor(batch[k]).Text? then [batch[k]] else [])
    ensures ReplyActions(messages, batch[..k + 1], replyFor, accountId, cid, now) ==
            ReplyActions(messages, batch[..k], replyFor, accountId, cid, now) +
              (if replyFor(batch[k]).Text?
               then [SendAction(accountId, cid, messages[batch[k]].conversationId, replyFor(batch[k]).text, now)]
               else [])
  {
    var id := batch[k];
    assert id !in batch[..k];
    assert batch[..k + 1] == batch[..k] + [id];
    RedriveOneMore(messages, batch[..k], id, replyFor);
    ReplyActionsOneMore(messages, batch[..k], id, replyFor, accountId, cid, now);
  }

  /** One step of the loop: message `id` is re-driven, and an action is queued if a reply came back. */
  method RedriveOne(db: Db, id: Id, accountId: Id, cid: Id, replyFor: Id -> Generated, now: Time)
    returns (replied: bool)
    requires db.Valid() && id < |db.messages|
    modifies db
    ensures db.Valid()
    ensures replied == replyFor(id).Text?
    ensures db.messages == old(db.messages)[id := Redrive(old(db.messages)[id], replyFor(id))]
    ensures db.actions == old(db.actions) +
              (if replied then [SendAction(accountId, cid, old(db.messages)[id].conversationId, replyFor(id).text, now)]
               else [])
    ensures db.clients == old(db.clients) && db.audit == old(db.audit)
  {
    var m := db.messages[id];
    var g := replyFor(id);
    RewriteKeepsUnique(db.messages, db.messages[id := Redrive(m, g)]);
    db.messages := db.messages[id := Redrive(m, g)];
    replied := g.Text?;
    if replied {
      var _ := db.CreateAction(SendAction(accountId, cid, m.conversationId, g.text, now));
    }
  }

  lemma ReplyActionsOneMore(messages: seq<Message>, done: seq<Id>, id: Id, replyFor: Id -> Generated,
                            accountId: Id, clientId: Id, now: Time)
    requires InRange(messages, done) && id < |messages|
    ensures InRange(messages, done + [id])
    ensures Replied(done + [id], replyFor) == Replied(done, replyFor) + (if replyFor(id).Text? then [id] else [])
    ensures ReplyActions(messages, done + [id], replyFor, accountId, clientId, now) ==
            ReplyActions(messages, done, replyFor, accountId, clientId, now) +
              (if replyFor(id).Text?
               then [SendAction(accountId, clientId, messages[id].conversationId, replyFor(id).text, now)] else [])
  {
  }

  lemma RedriveOneMore(messages: seq<Message>, done: seq<Id>, id: Id, replyFor: Id -> Generated)
    requires id < |messages| && id !in done
    ensures RedriveSome(messages, done + [id], replyFor) ==
            RedriveSome(messages, done, replyFor)[id := Redrive(messages[id], replyFor(id))]
  {
  }
}
