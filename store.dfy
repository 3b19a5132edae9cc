/** The durable store as the core sees it: the Action and Message collections, the clients it reads,
    and the security-audit trail. Rows are never deleted, so a row's id is its position. */
module Store {
  import opened Common
  import opened ActionModel
  import opened MessageModel

  /** The part of a `Client` record the core reads and writes: its owner, whether AI replies are on,
      and the reply counter. */
  datatype Client = Client(userId: Id, aiActive: bool, totalReplies: nat)

  datatype ResourceKind = ActionResource | ClientResource

  /** A cross-account access attempt: the account that asked and the resource it named. */
  datatype AuditEntry = CrossAccountAccess(requestedAccountId: Id, resource: ResourceKind, resourceId: Id)

  /** `Client.findOne({_id: clientId, userId: accountId})` finds a client. */
  predicate OwnsClient(clients: map<Id, Client>, clientId: Id, accountId: Id) {
    clientId in clients && clients[clientId].userId == accountId
  }

  /** `client.totalReplies += n; client.save()`: the client's reply counter goes up by `n`, and nothing
      else about any client changes. */
  function Credit(clients: map<Id, Client>, clientId: Id, n: nat): (r: map<Id, Client>)
    requires clientId in clients
    ensures r.Keys == clients.Keys
    ensures r[clientId].totalReplies == clients[clientId].totalReplies + n
    ensures r[clientId].userId == clients[clientId].userId && r[clientId].aiActive == clients[clientId].aiActive
    ensures forall id :: id in clients && id != clientId ==> r[id] == clients[id]
  {
    clients[clientId := clients[clientId].(totalReplies := clients[clientId].totalReplies + n)]
  }

  class Db {
    var actions: seq<Action>
    var messages: seq<Message>
    var clients: map<Id, Client>
    ghost var audit: seq<AuditEntry>

    /** The facts about the stored rows: required fields and the unique key are enforced by the store,
        while the lock invariant is no schema rule but is kept by every handler. */
    ghost predicate Valid()
      reads this
    {
      AllLockConsistent(actions) && AllHaveRequiredFields(messages) && UniqueKeys(messages)
    }

    constructor (clients: map<Id, Client>)
      ensures Valid()
      ensures actions == [] && messages == [] && this.clients == clients && audit == []
    {
      actions := [];
      messages := [];
      this.clients := clients;
      audit := [];
    }

    /** `Action.create`: stores the record under a fresh id. */
    method CreateAction(a: Action) returns (id: Id)
      requires Valid() && LockConsistent(a)
      modifies this
      ensures Valid()
      ensures id == |old(actions)| && actions == old(actions) + [a]
      ensures messages == old(messages) && clients == old(clients) && audit == old(audit)
    {
      id := |actions|;
      actions := actions + [a];
    }

    /** `Message.create`: stores the record under a fresh id, or fails with a duplicate-key error
        (`None`) when the unique index already holds its (accountId, idempotencyKey). */
    method CreateMessage(m: Message) returns (id: Option<Id>)
      requires Valid() && HasRequiredFields(m)
      modifies this
      ensures Valid()
      ensures FindByKey(old(messages), m.accountId, m.idempotencyKey).Some? ==>
                id == None && messages == old(messages)
      ensures FindByKey(old(messages), m.accountId, m.idempotencyKey).None? ==>
                id == Some(|old(messages)|) && messages == old(messages) + [m]
      ensures actions == old(actions) && clients == old(clients) && audit == old(audit)
    {
      if FindByKey(messages, m.accountId, m.idempotencyKey).Some? {
        id := None;
      } else {
        AppendKeepsUnique(messages, m);
        id := Some(|messages|);
        messages := messages + [m];
      }
    }
  }
}
