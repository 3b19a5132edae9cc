/** The dispatch protocol the polling extension uses: claim a batch of pending actions, then report
    each one as completed or failed. */
module ActionController {
  import opened Common
  import opened Query
  import opened ActionModel
  import opened MessageModel
  import opened RetryPolicy
  import opened Store

  /** How many actions one claim hands out. */
  const BATCH_LIMIT: nat := 5

  // ---------------------------------------------------------------------------------------------
  // Claim

  /** The claim filter: an action of the account that is pending and due (no `nextRunAt`, or one that
      has passed), or that is being processed under a lock that has expired. */
  predicate Claimable(a: Action, accountId: Id, now: Time) {
    && a.accountId == accountId
    && ((a.status == Pending && (a.nextRunAt.None? || a.nextRunAt.value <= now))
        || LockExpired(a, now))
  }

  /** The batch a claim selects: claimable actions of the account, at most five, oldest first; an
      action left out is never older than one selected, and is only left out of a full batch. */
  function SelectBatch(actions: seq<Action>, accountId: Id, now: Time): (batch: seq<Id>)
    ensures |batch| <= BATCH_LIMIT
    ensures forall k :: 0 <= k < |batch| ==> batch[k] < |actions| && Claimable(actions[batch[k]], accountId, now)
    ensures Distinct(batch)
    ensures forall j, k :: 0 <= j < k < |batch| ==> actions[batch[j]].createdAt <= actions[batch[k]].createdAt
    ensures forall i :: 0 <= i < |actions| && Claimable(actions[i], accountId, now) && i !in batch ==>
              |batch| == BATCH_LIMIT &&
              forall k :: 0 <= k < |batch| ==> actions[batch[k]].createdAt <= actions[i].createdAt
  {
    var p := (a: Action) => Claimable(a, accountId, now);
    var key := (a: Action) => a.createdAt;
    var batch := FindSorted(actions, p, key, BATCH_LIMIT);
    assert SortedBy(actions, key, batch);
    batch
  }

  /** The number a string of decimal digits spells. */
  function DigitsValue(s: string): nat
    requires forall k :: 0 <= k < |s| ==> '0' <= s[k] <= '9'
  {
    if s == [] then 0 else DigitsValue(s[..|s| - 1]) * 10 + (s[|s| - 1] as int - '0' as int)
  }

  /** The decimal digits of a natural number, as `String(n)` writes them: no leading zero, and they spell n. */
  function Decimal(n: nat): (s: string)
    ensures |s| >= 1 && forall k :: 0 <= k < |s| ==> '0' <= s[k] <= '9'
    ensures |s| > 1 ==> s[0] != '0'
    ensures DigitsValue(s) == n
  {
    var digit := ('0' as int + n % 10) as char;
    if n < 10 then [digit]
    else
      var front := Decimal(n / 10);
      assert (front + [digit])[..|front|] == front;
      front + [digit]
  }

  /** The lock owner a claim stamps: the extension's instance header, or `ext_<now>` when it sent none.
      Never empty, so a claimed action always has an owner. */
  function LockOwner(instanceHeader: string, now: Time): (owner: string)
    ensures owner != ""
    ensures instanceHeader != "" ==> owner == instanceHeader
    ensures instanceHeader == "" ==> owner == "ext_" + Decimal(now)
  {
    OrElse(instanceHeader, "ext_" + Decimal(now))
  }

  /** The effect of the claim on one selected action: locked now by `owner`, one more attempt counted,
      everything else as it was. */
  function Claim(a: Action, now: Time, owner: string): (c: Action)
    ensures c.status == Processing && c.lockedAt == Some(now) && c.lockOwner == Some(owner)
    ensures LockConsistent(c)
    ensures c.attemptCount == a.attemptCount + 1
    ensures SameIdentity(a, c) && c.nextRunAt == a.nextRunAt
    ensures c.lastErrorCode == a.lastErrorCode && c.lastErrorMessage == a.lastErrorMessage
  {
    a.(status := Processing, lockedAt := Some(now), lockOwner := Some(owner), attemptCount := a.attemptCount + 1)
  }

  /** `updateMany({_id: {$in: batch}}, ...)`: claims exactly the actions of the batch. */
  function LockBatch(actions: seq<Action>, batch: seq<Id>, now: Time, owner: string): (r: seq<Action>)
    ensures |r| == |actions|
    ensures forall i :: 0 <= i < |actions| && i in batch ==> r[i] == Claim(actions[i], now, owner)
    ensures forall i :: 0 <= i < |actions| && i !in batch ==> r[i] == actions[i]
    ensures AllLockConsistent(actions) ==> AllLockConsistent(r)
    ensures Evolves(actions, r)
  {
    seq(|actions|, i requires 0 <= i < |actions| =>
      if i in batch then Claim(actions[i], now, owner) else actions[i])
  }

  /** What the extension receives for one claimed action: its id, type and payload, nothing else. */
  datatype ClaimedAction = ClaimedAction(id: Id, kind: ActionType, payload: Payload)

  function Handout(actions: seq<Action>, batch: seq<Id>): (h: seq<ClaimedAction>)
    requires InRange(actions, batch)
    ensures |h| == |batch|
    ensures forall k :: 0 <= k < |h| ==>
              h[k].id == batch[k] && h[k].kind == actions[h[k].id].kind && h[k].payload == actions[h[k].id].payload
  {
    seq(|batch|, k requires 0 <= k < |batch| => ClaimedAction(batch[k], actions[batch[k]].kind, actions[batch[k]].payload))
  }

  /** A claim changes no action that the claim filter rejects: not those of other accounts, not completed
      or failed ones, not a pending one that is not yet due, not one under a live lock. */
  lemma ClaimLeavesUnclaimable(actions: seq<Action>, accountId: Id, now: Time, owner: string, i: nat)
    requires i < |actions| && !Claimable(actions[i], accountId, now)
    ensures LockBatch(actions, SelectBatch(actions, accountId, now), now, owner)[i] == actions[i]
  {
  }

  /** `GET /api/actions/pending`. */
  method GetPendingActions(db: Db, accountId: RawId, instanceHeader: string, now: Time)
    returns (r: Response<seq<ClaimedAction>>)
    requires db.Valid()
    modifies db
    ensures db.Valid()
    ensures db.messages == old(db.messages) && db.clients == old(db.clients) && db.audit == old(db.audit)
    ensures Evolves(old(db.actions), db.actions) && |db.actions| == |old(db.actions)|
    ensures accountId.Absent? ==> r == Err(400, AccountIdRequired) && db.actions == old(db.actions)
    ensures accountId.Malformed? ==> r == Err(400, InvalidAccountId) && db.actions == old(db.actions)
    ensures accountId.Wellformed? ==>
              var batch := SelectBatch(old(db.actions), accountId.id, now);
              && db.actions == LockBatch(old(db.actions), batch, now, LockOwner(instanceHeader, now))
              && r == Ok(Handout(old(db.actions), batch))
  {
    var owner := LockOwner(instanceHeader, now);
    if accountId.Absent? {
      return Err(400, AccountIdRequired);
    }
    if accountId.Malformed? {
      return Err(400, InvalidAccountId);
    }
    var found := db.actions;
    var batch := SelectBatch(found, accountId.id, now);
    if |batch| > 0 {
      db.actions := LockBatch(db.actions, batch, now, owner);
    } else {
      assert LockBatch(found, batch, now, owner) == found;
    }
    r := Ok(Handout(found, batch));
  }

  // ---------------------------------------------------------------------------------------------
  // Completion

  /** The answer to a completion report: success, or a recorded failure saying whether it will retry. */
  datatype Completion = Done | FailureRecorded(willRetry: bool)

  /** The new state of an action the extension reports on. Success completes it. A failure records the
      error and then either fails it for good (a non-retryable code, or the attempt budget spent) or
      puts it back in the queue after the backoff (retryable and unclassified codes alike). The lock is
      released either way; the current status is not consulted. */
  function Settle(a: Action, success: bool, errorCode: string, errorMessage: string, now: Time): (r: Action)
    ensures SameIdentity(a, r) && r.attemptCount == a.attemptCount
    ensures r.lockedAt == None && r.lockOwner == None && LockConsistent(r)
    ensures success ==> r.status == Completed
    ensures success ==> r.nextRunAt == a.nextRunAt && r.lastErrorCode == a.lastErrorCode &&
                        r.lastErrorMessage == a.lastErrorMessage
    ensures !success ==> r.lastErrorCode == Some(if errorCode == "" then "UNKNOWN" else errorCode)
    ensures !success ==> r.lastErrorMessage == Some(if errorMessage == "" then "Unknown error" else errorMessage)
    ensures !success ==> (r.status == Failed <==> Classify(errorCode) == NonRetryable || a.attemptCount >= MAX_ATTEMPTS)
    ensures !success ==> (r.status == Pending <==> Classify(errorCode) != NonRetryable && a.attemptCount < MAX_ATTEMPTS)
    ensures r.status == Failed ==> r.nextRunAt == a.nextRunAt
    ensures r.status == Pending ==>
              r.nextRunAt == Some(now + BackoffMinutes(a.attemptCount) * MINUTE_MS) &&
              r.nextRunAt.value <= now + 16 * MINUTE_MS
  {
    if success then
      a.(status := Completed, lockedAt := None, lockOwner := None)
    else
      var noted := a.(lastErrorCode := Some(OrElse(errorCode, "UNKNOWN")),
                      lastErrorMessage := Some(OrElse(errorMessage, "Unknown error")));
      if Classify(errorCode) == NonRetryable || a.attemptCount >= MAX_ATTEMPTS then
        noted.(status := Failed, lockedAt := None, lockOwner := None)
      else
        BackoffWithinBudget(a.attemptCount);
        Requeue(noted, now)
  }

  /** The messages of one conversation of one client and account that still wait for their reply. */
  predicate AwaitsReply(m: Message, conversationId: string, clientId: Id, accountId: Id) {
    m.conversationId == conversationId && m.clientId == clientId && m.accountId == accountId && m.replyStatus == Queued
  }

  /** `Message.updateMany({conversationId, clientId, accountId, replyStatus: 'queued'}, {replyStatus: to})`:
      exactly the waiting messages of the conversation get the new status; no other message and no
      other field changes, so the unique index and the required fields survive. */
  function Cascade(messages: seq<Message>, conversationId: string, clientId: Id, accountId: Id, to: ReplyStatus)
    : (r: seq<Message>)
    ensures |r| == |messages|
    ensures forall i :: 0 <= i < |messages| && AwaitsReply(messages[i], conversationId, clientId, accountId) ==>
              r[i].replyStatus == to
    ensures forall i :: 0 <= i < |messages| && !AwaitsReply(messages[i], conversationId, clientId, accountId) ==>
              r[i] == messages[i]
    ensures forall i :: 0 <= i < |messages| ==> r[i].(replyStatus := messages[i].replyStatus) == messages[i]
    ensures forall i :: 0 <= i < |messages| && messages[i].accountId != accountId ==> r[i] == messages[i]
    ensures UniqueKeys(messages) ==> UniqueKeys(r)
    ensures AllHaveRequiredFields(messages) ==> AllHaveRequiredFields(r)
  {
    var r := seq(|messages|, i requires 0 <= i < |messages| =>
      if AwaitsReply(messages[i], conversationId, clientId, accountId) then messages[i].(replyStatus := to)
      else messages[i]);
    RewriteKeepsUnique(messages, r);
    r
  }

  /** Which reply status a completion report passes on to the action's messages, if any: only a
      `sendMessage` action with a conversation does, on success (`sent`) or on a terminal failure (`failed`). */
  function CascadeStatus(a: Action, success: bool, settled: Action): Option<ReplyStatus> {
    if a.kind == SendMessage && a.payload.conversationId != "" then
      if success then Some(Sent) else if settled.status == Failed then Some(ReplyFailed) else None
    else None
  }

  /** `findOne({_id: id, accountId})`: the action exists and belongs to the account. */
  predicate Owned(actions: seq<Action>, id: Id, accountId: Id) {
    id < |actions| && actions[id].accountId == accountId
  }

  /** `POST /api/actions/:id/complete`. */
  method CompleteAction(db: Db, actionId: RawId, accountId: RawId, success: bool, errorCode: string,
                        errorMessage: string, now: Time)
    returns (r: Response<Completion>)
    requires db.Valid()
    modifies db
    ensures db.Valid()
    ensures db.clients == old(db.clients)
    ensures Evolves(old(db.actions), db.actions) && |db.actions| == |old(db.actions)|
    ensures !accountId.Wellformed? || !actionId.Wellformed? ==>
              && r == Err(400, if accountId.Absent? then AccountIdRequired
                               else if accountId.Malformed? then InvalidAccountId
                               else InvalidActionId)
              && db.actions == old(db.actions) && db.messages == old(db.messages) && db.audit == old(db.audit)
    ensures accountId.Wellformed? && actionId.Wellformed? && !Owned(old(db.actions), actionId.id, accountId.id) ==>
              && r == Err(404, ActionNotFound)
              && db.actions == old(db.actions) && db.messages == old(db.messages)
              && db.audit == old(db.audit) + [CrossAccountAccess(accountId.id, ActionResource, actionId.id)]
    ensures accountId.Wellformed? && actionId.Wellformed? && Owned(old(db.actions), actionId.id, accountId.id) ==>
              var a := old(db.actions)[actionId.id];
              var settled := Settle(a, success, errorCode, errorMessage, now);
              && db.actions == old(db.actions)[actionId.id := settled]
              && db.messages == (match CascadeStatus(a, success, settled)
                                 case None => old(db.messages)
                                 case Some(to) => Cascade(old(db.messages), a.payload.conversationId, a.clientId,
                                                          accountId.id, to))
              && db.audit == old(db.audit)
              && r == Ok(if success then Done else FailureRecorded(settled.status == Pending))
  {
    if accountId.Absent? {
      return Err(400, AccountIdRequired);
    }
    if accountId.Malformed? {
      return Err(400, InvalidAccountId);
    }
    if !actionId.Wellformed? {
      return Err(400, InvalidActionId);
    }
    var id, account := actionId.id, accountId.id;
    if !Owned(db.actions, id, account) {
      db.audit := db.audit + [CrossAccountAccess(account, ActionResource, id)];
      return Err(404, ActionNotFound);
    }
    var a := db.actions[id];
    var settled := Settle(a, success, errorCode, errorMessage, now);
    var cascade := CascadeStatus(a, success, settled);
    if cascade.Some? {
      db.messages := Cascade(db.messages, a.payload.conversationId, a.clientId, account, cascade.value);
    }
    db.actions := db.actions[id := settled];
    r := Ok(if success then Done else FailureRecorded(settled.status == Pending));
  }

  /** Completion does not check that the action is being processed, so a late failure report re-opens an
      action that was already completed: terminal states are not final under this handler. */
  lemma LateFailureReopensCompleted(a: Action, now: Time)
    requires a.attemptCount < MAX_ATTEMPTS
    ensures Settle(Settle(a, true, "", "", now), false, "NETWORK", "", now).status == Pending
  {
  }
}
