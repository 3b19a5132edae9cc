# Action work-queue of the extension backend, modelled in Dafny

The backend keeps a durable table of `Action` records that a browser extension drains by polling.
This project models that queue and the code around it:

- **Claim.** `GET /api/actions/pending` hands an account up to five eligible actions, oldest first.
  It locks them and counts one more attempt on each.
- **Completion.** `POST /api/actions/:id/complete` marks the action `completed`, marks it `failed`, or
  puts it back in the queue with an exponential backoff. It then passes the outcome on to the action's
  queued messages.
- **Stale-lock reaper.** A background sweep over all accounts. Each `processing` action locked for five
  minutes or more is either failed or re-queued.
- **Ingestion.** `POST /api/messages/incoming` stores each inbound message once per
  `(accountId, idempotencyKey)`. It asks the reply generator for a reply and queues one `sendMessage`
  action when a reply comes back.
- **Batch job.** `POST /api/messages/process-pending` re-drives up to 50 unanswered messages of a client.
- **Records.** The `Action` and `Message` records, with their defaults and the unique index on messages.

## How the model is built

- **The store.** It is one object, `Store.Db`:
  - The action and message tables are sequences that only grow, so a row's id is its position.
  - The clients are a map.
  - The security-audit trail is a ghost sequence that the handlers append to.
  - `Db.Valid()` joins two kinds of facts:
    - enforced by the store: every message has the fields its schema requires, and no two messages
      share an account and an idempotency key (the unique index on messages);
    - kept by the handlers: the lock fields are set exactly while an action is `processing`
      (`ActionModel.LockConsistent`). No schema enforces this (the Action schema only gives the lock
      fields null defaults); every handler is proved to preserve it.
- **The handlers.** They are methods on the store. Each is specified by a pure function of its inputs
  and the old state: `SelectBatch`/`LockBatch`, `Settle`/`Cascade`, `ReapAll`, `Admitted`, `BatchRun`.
  The properties of those functions are proved as their postconditions and as lemmas.
- **The queries.** Mongo's `find(filter).sort({field: 1}).limit(n)` is `Query.FindSorted`: a scan in id
  order, then a stable sort on the key, then a prefix. Its contract states the limit, the filter,
  ascending order, no repeated rows, and that a matching row is left out only of a full batch and is
  never older than a row that was returned.
- **Outside inputs.** The clock (`now`), the store's connection state (`ready`) and the reply generator
  (`Generated = Text(s) | GenerationFailed`) are parameters. A concurrent delivery that wins the race
  for an idempotency key is the `raced` parameter of the ingestion handler: a message stored between
  its duplicate check and its insert.
- **Identifiers.** The controllers check an id in two ways: present or not, and a well-formed ObjectId
  or not. The model folds both into `RawId = Absent | Malformed | Wellformed(id)`. JavaScript's falsy
  strings are the empty string.

A work queue of this kind is usually expected to promise more than this code does. The model follows
the code, and where the code falls short of that expectation it says so:

- **No status check on completion.** One would expect `completed` and `failed` to be terminal, and a
  completion report arriving after the reaper took the action back to do nothing, because the action is
  no longer `processing`. `completeAction` does not check the status. `ActionController.LateFailureReopensCompleted`
  shows a completed action put back in the queue by a late failure report.
- **Repeated deliveries.** One would expect a repeated delivery to return the original outcome. The code
  returns the stored message's id with `actionId: null` (`MessageMonitor.HandleIncomingMessage`,
  `MessageMonitor.DeliverTwice`). This includes a retry after the first delivery got a 500 because
  generation failed. The message is already stored (marked `failed`), so the retry is answered
  "already processed" and never generates a reply. Only the batch job can still answer that message.
- **One action per message.** One would expect each message to get at most one action. The batch job also
  selects messages whose reply is already `queued` with an action pending, and so queues a second
  action for them (`MessageMonitor.QueuedMessageIsRedriven`).
- **No tenant check on the claim.** `getPendingActions` checks only that the account id is present and
  well-formed. It does not check that the account exists. An unknown account id simply gets an empty
  batch.
- **Claims are not atomic.** The claim is a `find` followed by an `updateMany` on the ids found. The
  update does not re-check the filter, so two concurrent polls of the same account can both claim the
  same action. The model runs each handler as one step and so does not exhibit this (see "Left out").

Two more consequences of the code are proved:

- Re-queues happen only while fewer than five attempts have been used, so the backoff never exceeds
  16 minutes and its 60-minute cap is never reached (`RetryPolicy.BackoffWithinBudget`).
- Unlike the ingestion handler, the batch job has no empty-reply check of its own. An empty text
  would be stored as the reply and sent (`MessageMonitor.EmptyReplyIsSent`). The case cannot arise with
  the real generator, which throws instead of returning an empty reply
  (services/aiReplyService.js:108-111). The model's generator is a parameter that may answer any text.

## Model

| member | source | states |
|---|---|---|
| ActionModel.NewAction | models/Action.js:26-58 | a new action is `pending`, has no attempts, error, lock or `nextRunAt`, and so is lock-consistent; account, client, type and payload are the given ones |
| ActionModel.EvolvesTransitive | controllers/actionController.js:64-76 | table changes compose: over any sequence of queue operations, rows keep their account, client, type, payload and creation time, and attempt counts never decrease |
| MessageModel.NewMessage | models/Message.js:29-43 | a new message has no reply text and reply status `none`, and carries the given account, key, client, conversation, sender and text |
| MessageModel.FindByKey | controllers/messageMonitorController.js:216-219 | a hit is a message of that account with that key; there is no hit exactly when no such message exists |
| MessageModel.LookupIsExact | models/Message.js:57 | under the unique index on (accountId, idempotencyKey), the key lookup returns the one message holding the key |
| MessageModel.AppendKeepsUnique | models/Message.js:57 | inserting a message whose key is free keeps the index unique, and the lookup then finds the new message |
| Query.FindSorted | controllers/actionController.js:46-59 | find-sort-limit: at most `limit` rows, all matching, none repeated, ascending by key; a matching row is left out only of a full result, and then it is not older than any returned row |
| RetryPolicy.Classify | controllers/actionController.js:215-216 | a code is retryable exactly when it is in the retryable list, non-retryable exactly when it is in the non-retryable list, and unclassified otherwise |
| RetryPolicy.BackoffMinutes | controllers/actionController.js:239 | the wait is `min(2^attemptCount, 60)` minutes, between 1 and 60 |
| RetryPolicy.BackoffSchedule | controllers/actionController.js:238-239 | the schedule is 1, 2, 4, 8, 16, 32 minutes, then 60 for six or more attempts |
| RetryPolicy.BackoffWithinBudget | controllers/actionController.js:218-248 | with fewer than five attempts used (the only case that re-queues) the wait is at most 16 minutes |
| RetryPolicy.Requeue | controllers/actionController.js:242-254 | a re-queued action is pending, unlocked, runnable `now + backoff` later (between 1 and 60 minutes), with identity, attempt count and last error kept |
| Store.Credit | controllers/messageMonitorController.js:269-270 | the client's reply counter goes up by `n`; its owner and AI switch, and every other client, are unchanged |
| Store.Db.CreateAction | controllers/messageMonitorController.js:284-293 | the action is appended under the next id; messages, clients and audit are unchanged |
| Store.Db.CreateMessage | controllers/messageMonitorController.js:235-239 | the insert is refused (`None`) and the table unchanged when the account already holds the key; otherwise the message is appended under the next id; the index stays unique |
| ActionController.SelectBatch | controllers/actionController.js:44-59 | at most five actions, all of the account and claimable (pending and due, or processing under a lock at least five minutes old), distinct, by creation time ascending; a claimable action left out is left out only of a full batch and is not older than any selected one |
| ActionController.Decimal | controllers/actionController.js:19 | `Date.now()` written in decimal: digits only, no leading zero, spelling exactly the number |
| ActionController.LockOwner | controllers/actionController.js:19 | the lock owner is the instance header when present, `ext_<now>` otherwise, and never empty |
| ActionController.Claim | controllers/actionController.js:66-76 | a claimed action is processing, locked at `now` by the owner, with exactly one more attempt and all else unchanged |
| ActionController.LockBatch | controllers/actionController.js:64-78 | exactly the selected actions are claimed, every other action is unchanged, and the lock invariant and the evolution rules are kept |
| ActionController.Handout | controllers/actionController.js:81-85 | the answer lists the claimed actions in selection order, each with its id, type and payload only |
| ActionController.ClaimLeavesUnclaimable | controllers/actionController.js:44-76 | an action the filter rejects (another account's, completed, failed, not yet due, under a live lock) is not changed by a claim |
| ActionController.GetPendingActions | controllers/actionController.js:15-103 | a missing or malformed account id is refused with 400 and changes nothing; otherwise the selected batch is locked and handed out, and messages, clients and audit are unchanged |
| ActionController.Settle | controllers/actionController.js:178-257 | success completes the action; a failure records the code (default `UNKNOWN`) and message (default `Unknown error`); it then fails the action exactly when the code is non-retryable or five attempts are used, and otherwise re-queues it after the backoff; the lock is released; identity and attempt count are kept |
| ActionController.Cascade | controllers/actionController.js:186-197 | exactly the queued messages of the conversation, client and account get the new reply status; no other message or field changes, so the index and the required fields survive |
| ActionController.CompleteAction | controllers/actionController.js:110-273 | bad ids give 400 and change nothing; an action that is absent or owned by another account gives 404, appends one cross-account audit entry and changes nothing else; otherwise the action is settled, its messages get `sent` or `failed` as the outcome says, and the answer's `willRetry` is whether it is pending again |
| ActionController.LateFailureReopensCompleted | controllers/actionController.js:153-257 | since the status is not checked, a failure reported after a success puts a completed action back in the queue |
| StaleLockReaper.StaleIds | services/staleLockReaper.js:26-32 | exactly the processing actions of every account whose lock is at least five minutes old are found, each once |
| StaleLockReaper.Reap | services/staleLockReaper.js:36-57 | a spent budget fails the action with `STALE_LOCK_MAX_ATTEMPTS` and its message; otherwise it is re-queued after the backoff; the lock is released, and the attempt count, account, client, type and payload are kept |
| StaleLockReaper.ReapAll | services/staleLockReaper.js:36-58 | after a run every stale action is reaped, every other action is unchanged, no action is left under an expired lock, and attempt counts are unchanged |
| StaleLockReaper.StaleCount | services/staleLockReaper.js:60 | the number of actions a run handles is the number of stale actions in the table |
| StaleLockReaper.ReapStaleLocks | services/staleLockReaper.js:18-65 | with the store down the run is skipped, reports 0 and changes nothing; otherwise the table becomes the reaped table and the report counts the stale actions; messages, clients and audit are untouched |
| MessageMonitor.Screen | controllers/messageMonitorController.js:142-202 | a request passes exactly when every field is present, both ids are well-formed, the account owns the client and the client has AI on; only an ownership failure answers 404, every other refusal 400 |
| MessageMonitor.SendAction | controllers/messageMonitorController.js:284-293 | the queued action is a pending, unlocked, unattempted `sendMessage` of the account and client, with payload `{conversationId, messageText: reply}`, no `nextRunAt` (so the next poll can claim it), no last error, and created `now` |
| MessageMonitor.HandleIncomingMessage | controllers/messageMonitorController.js:127-335 | a refused request changes nothing and only an ownership failure is audited; a known key answers with the stored message and no action, changing nothing; a new key is handled as `Admitted` says; after any accepted request the table holds the key, and a successful answer names that message |
| MessageMonitor.Admit | controllers/messageMonitorController.js:234-326 | after a concurrent delivery the outcome is `Admitted` over the table that delivery left; the key is then stored, and a successful answer names its message |
| MessageMonitor.CreateAndReply | controllers/messageMonitorController.js:234-326 | a key taken under the index answers like a duplicate and changes nothing; otherwise the message is stored queued, then either marked failed with a 500 and no action, or given its reply, with one more reply counted and one `sendMessage` action queued |
| MessageMonitor.RecordReply | controllers/messageMonitorController.js:243-305 | no reply, or an empty one, marks the message failed, answers 500 and creates nothing; a reply is stored on the message, the client is credited with one reply and exactly one action is queued; the key still finds the message |
| MessageMonitor.DeliverTwice | controllers/messageMonitorController.js:214-305 | delivering a request twice stores at most one message and queues at most one action; after a success the second delivery names the same message and no action, and exactly one action exists when the first answer named one; after a failed generation (500) the retry is answered "already processed" with no action and queues nothing |
| MessageMonitor.PendingBatch | controllers/messageMonitorController.js:409-419 | at most 50 messages of the client and account whose reply status is `none`, `queued` or `failed`, distinct, by reception time ascending; one left out is left out only of a full batch and is not older than any selected one |
| MessageMonitor.BatchStaysWithClient | controllers/messageMonitorController.js:409-419 | a run of the batch job changes no message of another client or another account |
| MessageMonitor.QueuedMessageIsRedriven | controllers/messageMonitorController.js:414-456 | a message whose reply is already queued is selected again, and a reply for it queues another action |
| MessageMonitor.Redrive | controllers/messageMonitorController.js:439-466 | a reply is stored on the message with status `queued`; a failed generation marks it `failed` and keeps its text; nothing else changes |
| MessageMonitor.RedriveSome | controllers/messageMonitorController.js:435-469 | each listed message becomes its re-drive under the generator's answer for it (reply stored and `queued`, or `failed`); every other message is unchanged; table size, the index and the required fields are preserved |
| MessageMonitor.Replied | controllers/messageMonitorController.js:459-467 | the messages counted as `processed`: exactly those of the batch the generator answered, each once when the batch has no repeats, in batch order |
| MessageMonitor.RepliedCount | controllers/messageMonitorController.js:459 | over a batch without repeats, `processed` equals the number of messages in the batch the generator answered |
| MessageMonitor.ReplyActions | controllers/messageMonitorController.js:446-456 | one action per message that got a reply, in batch order, each a pending, unlocked, unattempted `sendMessage` of the account and client whose payload is that message's conversation and its reply text |
| MessageMonitor.EmptyReplyIsSent | controllers/messageMonitorController.js:439-456 | an empty reply in the batch job is stored as the message's reply with status `queued`, and an action sends it into the message's conversation |
| MessageMonitor.ProcessPendingMessages | controllers/messageMonitorController.js:382-494 | a missing client id gives 400, a malformed one 500, a client the account does not own 404, a client with AI off 400, and each of these changes nothing; otherwise the outcome is `BatchRun`; no audit entry in any case |
| MessageMonitor.RunBatch | controllers/messageMonitorController.js:423-485 | an empty batch answers "nothing pending" and changes nothing; otherwise every batch message is re-driven, the actions of the replies are appended, the client is credited with the replies, and the report is `processed`, `failed = total - processed`, `total` |
| MessageMonitor.RedriveBatch | controllers/messageMonitorController.js:431-469 | the loop leaves the re-driven table and the appended reply actions, with `processed` the number of replies and `processed + failed` the batch size |
| MessageMonitor.RedriveStep | controllers/messageMonitorController.js:435-468 | one iteration extends the re-driven prefix of the batch by one message and its action, if any |
| MessageMonitor.RedriveOne | controllers/messageMonitorController.js:436-468 | one message is re-driven, and an action is queued exactly when a reply came back |

## Left out

- Express plumbing and logging: answers are the `Response` datatype (status and reason, or a body); messages, `console` output and the 500 answers of the `catch` blocks for store failures are not modelled, since the in-memory store does not fail.
- Concurrency: every handler runs to completion on its own. The claim's `find` then `updateMany` is one step. The only interleaving modelled is one concurrent ingestion of the same key, as the `raced` parameter.
- The clock is read once per call (`now`); the source reads `Date.now()` again for the lock stamp and the stale threshold within the same call.
- Tie order among actions or messages with equal `createdAt` or `receivedAt`: the model sorts stably by id, and no property depends on the order among equals.
- `startReaper` and `startReaperInterval`: timers that schedule the reaper every two minutes.
- The 500 ms `setTimeout` pause between messages of the batch job.
- The reply generator (OpenAI and Gemini calls, prompt building, the `OPENAI_API_KEY` check): a parameter whose answer is a text or a failure.
- Authentication, encryption and the remaining CRUD controllers: outside the queue.
- The request path in the cross-account audit record: the model records the account, the resource kind and the id.
- Other action payloads: the schema declares `payload` as free-form, but the model fixes it to the
  `sendMessage` fields `conversationId` and `messageText`. A payload with other fields (for a
  `refreshSession` action, say) cannot be represented. Nothing in the modelled code reads any other
  field; the hand-out passes the payload through unchanged.
- The `Client` record beyond its owner, AI switch and reply counter.
- StaleLockReaper.ReapStaleLocks: a save that fails for one action aborts the source's loop and re-throws; such failures are not modelled.
- MessageMonitor.ProcessPendingMessages: the source cannot tell a store failure inside the loop from a failed generation; the model counts a message as failed only when generation fails.
