/** The `Action` record: one unit of work of the queue the browser extension drains. */
module ActionModel {
  import opened Common

  datatype ActionType = SendMessage | RefreshSession

  datatype ActionStatus = Pending | Processing | Completed | Failed

  /** The type-specific payload. A `sendMessage` action carries the conversation and the text to send;
      the empty string stands for a field the payload does not have. */
  datatype Payload = Payload(conversationId: string, messageText: string)

  datatype Action = Action(
    accountId: Id,
    clientId: Id,
    kind: ActionType,
    payload: Payload,
    status: ActionStatus,
    attemptCount: nat,
    lastErrorCode: Option<string>,
    lastErrorMessage: Option<string>,
    lockedAt: Option<Time>,
    lockOwner: Option<string>,
    nextRunAt: Option<Time>,
    createdAt: Time)

  /** The lock fields are set exactly while the action is being processed. */
  predicate LockConsistent(a: Action) {
    if a.status == Processing then a.lockedAt.Some? && a.lockOwner.Some?
    else a.lockedAt.None? && a.lockOwner.None?
  }

  predicate AllLockConsistent(actions: seq<Action>) {
    forall i :: 0 <= i < |actions| ==> LockConsistent(actions[i])
  }

  /** The fields that no queue operation writes once the action exists. */
  predicate SameIdentity(a: Action, b: Action) {
    && a.accountId == b.accountId
    && a.clientId == b.clientId
    && a.kind == b.kind
    && a.payload == b.payload
    && a.createdAt == b.createdAt
  }

  /** How the table may change: rows are appended and never removed, the identity of a row never
      changes and its attempt count never decreases. */
  predicate Evolves(before: seq<Action>, after: seq<Action>) {
    && |before| <= |after|
    && forall i :: 0 <= i < |before| ==>
         SameIdentity(before[i], after[i]) && before[i].attemptCount <= after[i].attemptCount
  }

  /** A new action with the schema's defaults: pending, never attempted, no error, unlocked and
      runnable immediately. */
  function NewAction(accountId: Id, clientId: Id, kind: ActionType, payload: Payload, now: Time): (a: Action)
    ensures a.status == Pending && LockConsistent(a)
    ensures a.attemptCount == 0 && a.nextRunAt == None
    ensures a.lastErrorCode == None && a.lastErrorMessage == None
    ensures a.accountId == accountId && a.clientId == clientId && a.kind == kind && a.payload == payload
    ensures a.createdAt == now
  {
    Action(accountId, clientId, kind, payload, Pending, 0, None, None, None, None, None, now)
  }

  /** Appending new actions to the table is a legal evolution of it. */
  lemma AppendEvolves(actions: seq<Action>, more: seq<Action>)
    ensures Evolves(actions, actions + more)
  {
  }

  lemma {:induction false} EvolvesTransitive(a: seq<Action>, b: seq<Action>, c: seq<Action>)
    requires Evolves(a, b) && Evolves(b, c)
    ensures Evolves(a, c)
  {
  }
}
