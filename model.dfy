/** The persisted record shapes of model/message.js: a Message embedded in a
    Batch document, and the plain {senderId, message, timestamp} object that
    the read paths and the live-connection path hand to clients. */
module Model {

  /** An instant, in milliseconds since the epoch. */
  type Time = int

  /** A message sub-document. `senderId` and `message` are required strings;
      `timestamp` defaults to the time the sub-document is created. */
  datatype Message = Message(senderId: string, message: string, timestamp: Time)

  /** A batch document: the conversation it belongs to, its messages in
      insertion order, and the times of its first and last message. */
  datatype Batch = Batch(chatId: string, messages: seq<Message>, startTime: Time, endTime: Time)

  /** The plain object sent to clients: a message without its document identity. */
  datatype Entry = Entry(senderId: string, message: string, timestamp: Time)

  /** Mongoose's `required` validator on a String path rejects a missing value
      and the empty string alike. */
  predicate Present(s: string) {
    s != ""
  }

  /** A message passes schema validation. */
  predicate ValidMessage(m: Message) {
    Present(m.senderId) && Present(m.message)
  }

  /** A batch passes schema validation: its own required path and every
      embedded message's. */
  predicate ValidBatch(b: Batch) {
    Present(b.chatId) && forall i :: 0 <= i < |b.messages| ==> ValidMessage(b.messages[i])
  }

  /** Pushing `{senderId, message}` onto a batch creates a sub-document whose
      timestamp is the schema default, the current time. */
  function NewMessage(senderId: string, message: string, now: Time): Message {
    Message(senderId, message, now)
  }

  /** The fresh, empty batch the send path opens, with both times set to now. */
  function NewBatch(chatId: string, now: Time): Batch {
    Batch(chatId, [], now, now)
  }

  /** The projection to the client-facing shape. */
  function View(m: Message): Entry {
    Entry(m.senderId, m.message, m.timestamp)
  }

  /** `messages.map(msg => ({senderId, message, timestamp}))`. */
  function Entries(ms: seq<Message>): (r: seq<Entry>)
    ensures |r| == |ms|
    ensures forall i :: 0 <= i < |ms| ==>
              r[i].senderId == ms[i].senderId && r[i].message == ms[i].message &&
              r[i].timestamp == ms[i].timestamp
  {
    seq(|ms|, i requires 0 <= i < |ms| => View(ms[i]))
  }

  /** Validation of a batch after one more message is pushed depends only on
      the batch as it was and on the new message. */
  lemma ValidBatchPush(b: Batch, m: Message)
    ensures ValidBatch(b.(messages := b.messages + [m])) <==> ValidBatch(b) && ValidMessage(m)
  {
    var ms := b.messages + [m];
    assert ms[|b.messages|] == m;
    assert forall i :: 0 <= i < |b.messages| ==> ms[i] == b.messages[i];
  }
}
