/** The `Message` record: an inbound LinkedIn message and the state of the reply to it. */
module MessageModel {
  import opened Common
  import opened Query

  datatype ReplyStatus = NoReply | Queued | Sent | ReplyFailed

  datatype Message = Message(
    clientId: Id,
    accountId: Id,
    conversationId: string,
    senderName: string,
    incomingText: string,
    receivedAt: Time,
    replyText: Option<string>,
    replyStatus: ReplyStatus,
    idempotencyKey: string)

  /** The schema's required string fields are present (a required string may not be empty). */
  predicate HasRequiredFields(m: Message) {
    m.conversationId != "" && m.senderName != "" && m.incomingText != "" && m.idempotencyKey != ""
  }

  predicate AllHaveRequiredFields(messages: seq<Message>) {
    forall i :: 0 <= i < |messages| ==> HasRequiredFields(messages[i])
  }

  /** The unique index on (accountId, idempotencyKey). */
  predicate UniqueKeys(messages: seq<Message>) {
    forall i, j :: 0 <= i < j < |messages| && messages[i].accountId == messages[j].accountId ==>
      messages[i].idempotencyKey != messages[j].idempotencyKey
  }

  predicate HasKey(m: Message, accountId: Id, key: string) {
    m.accountId == accountId && m.idempotencyKey == key
  }

  /** A new message with the schema's defaults: no reply text and reply status `none`. */
  function NewMessage(clientId: Id, accountId: Id, conversationId: string, senderName: string,
                      incomingText: string, now: Time, idempotencyKey: string): (m: Message)
    ensures m.replyText == None && m.replyStatus == NoReply && m.receivedAt == now
    ensures HasKey(m, accountId, idempotencyKey) && m.clientId == clientId
    ensures m.conversationId == conversationId && m.senderName == senderName && m.incomingText == incomingText
  {
    Message(clientId, accountId, conversationId, senderName, incomingText, now, None, NoReply, idempotencyKey)
  }

  /** `findOne({idempotencyKey, accountId})`: the first message with that key for that account. */
  function FindByKey(messages: seq<Message>, accountId: Id, key: string): (r: Option<Id>)
    ensures r.Some? ==> r.value < |messages| && HasKey(messages[r.value], accountId, key)
    ensures r.None? <==> forall i :: 0 <= i < |messages| ==> !HasKey(messages[i], accountId, key)
  {
    var hits := Where(messages, m => HasKey(m, accountId, key));
    if hits == [] then None else Some(hits[0])
  }

  /** Under the unique index, the message a key lookup returns is the only one with that key. */
  lemma LookupIsExact(messages: seq<Message>, accountId: Id, key: string, i: nat)
    requires UniqueKeys(messages)
    requires i < |messages| && HasKey(messages[i], accountId, key)
    ensures FindByKey(messages, accountId, key) == Some(i)
  {
  }

  /** Appending a message whose key is not yet taken keeps the index unique, and the lookup then finds it. */
  lemma AppendKeepsUnique(messages: seq<Message>, m: Message)
    requires UniqueKeys(messages)
    requires FindByKey(messages, m.accountId, m.idempotencyKey) == None
    ensures UniqueKeys(messages + [m])
    ensures FindByKey(messages + [m], m.accountId, m.idempotencyKey) == Some(|messages|)
  {
  }

  /** Rewriting messages without touching their account or key keeps the index unique. */
  lemma RewriteKeepsUnique(before: seq<Message>, after: seq<Message>)
    requires |before| == |after|
    requires forall i :: 0 <= i < |before| ==>
               after[i].accountId == before[i].accountId && after[i].idempotencyKey == before[i].idempotencyKey
    ensures UniqueKeys(before) ==> UniqueKeys(after)
  {
  }
}
