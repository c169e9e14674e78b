/** The live-connection handlers of server.js: joining a conversation's room,
    and sending a message, which places it in the latest batch of the
    conversation or in a fresh one, saves that batch, and then emits the
    message to the room. */
module Server {
  import opened Wrappers
  import opened Model
  import opened Store
  import opened Controller

  /** A live connection, identified by its socket id. */
  type ConnId = string

  /** Maximum number of messages per batch. */
  const BatchSizeLimit: nat := 100

  /** What `io.to(chatId).emit("receiveMessage", payload)` delivers, and to whom. */
  datatype Emission = Emission(room: string, recipients: set<ConnId>, payload: Entry)

  /** A stored batch passed validation when it was saved, and holds between
      one and `BatchSizeLimit` messages. */
  predicate WellFormed(b: Batch) {
    ValidBatch(b) && 1 <= |b.messages| <= BatchSizeLimit
  }

  predicate AllWellFormed(bs: seq<Batch>) {
    forall i :: 0 <= i < |bs| ==> WellFormed(bs[i])
  }

  /** The latest batch is closed, or there is none: the message opens a fresh batch. */
  predicate OpensBatch(bs: seq<Batch>, chatId: string) {
    var l := Latest(bs, chatId);
    l.None? || |bs[l.value].messages| >= BatchSizeLimit
  }

  /** The batch as it is about to be saved: the chosen batch with the message
      pushed and its end time set to now. */
  function Target(bs: seq<Batch>, chatId: string, m: Message, now: Time): Batch {
    var b := if OpensBatch(bs, chatId) then NewBatch(chatId, now) else bs[Latest(bs, chatId).value];
    b.(messages := b.messages + [m], endTime := now)
  }

  /** The store after the target batch is saved: a fresh batch is inserted
      after all others, an existing one is replaced where it is. */
  function Placed(bs: seq<Batch>, chatId: string, m: Message, now: Time): seq<Batch> {
    if OpensBatch(bs, chatId) then bs + [Target(bs, chatId, m, now)]
    else bs[Latest(bs, chatId).value := Target(bs, chatId, m, now)]
  }

  /** The save succeeds: the store is reachable and the document validates. */
  predicate Saves(bs: seq<Batch>, chatId: string, m: Message, now: Time, storageOk: bool) {
    storageOk && ValidBatch(Target(bs, chatId, m, now))
  }

  /** The connections joined to a room. */
  function Members(rooms: map<string, set<ConnId>>, chatId: string): set<ConnId> {
    if chatId in rooms then rooms[chatId] else {}
  }

  /** `socket.join(chatId)` on socket.io's room table. */
  function Join(rooms: map<string, set<ConnId>>, conn: ConnId, chatId: string): map<string, set<ConnId>> {
    rooms[chatId := Members(rooms, chatId) + {conn}]
  }

  /** The room table after a sequence of joins (connection, room), in order,
      starting from no rooms. */
  function Joins(js: seq<(ConnId, string)>): map<string, set<ConnId>> {
    if js == [] then map[] else Join(Joins(js[..|js| - 1]), js[|js| - 1].0, js[|js| - 1].1)
  }

  /** A join adds the connection to its room and leaves every other room as it was. */
  lemma JoinMembers(rooms: map<string, set<ConnId>>, conn: ConnId, chatId: string, room: string)
    ensures Members(Join(rooms, conn, chatId), room) ==
            if room == chatId then Members(rooms, room) + {conn} else Members(rooms, room)
  {
  }

  /** A room's members are exactly the connections that joined it. */
  lemma {:induction false} JoinsMembers(js: seq<(ConnId, string)>, room: string)
    ensures Members(Joins(js), room) == set j | j in js && j.1 == room :: j.0
  {
    if js != [] {
      var init, last := js[..|js| - 1], js[|js| - 1];
      JoinsMembers(init, room);
      JoinMembers(Joins(init), last.0, last.1, room);
      assert js == init + [last];
      assert (set j | j in js && j.1 == room :: j.0) ==
             (set j | j in init && j.1 == room :: j.0) + (if last.1 == room then {last.0} else {});
    }
  }

  // ------------------------------------------------------- properties of Placed

  /** A conversation without any batch gets exactly one, holding exactly the
      new message, whose start and end time are the message's time. */
  lemma PlacedFirstBatch(bs: seq<Batch>, chatId: string, senderId: string, message: string, now: Time)
    requires forall j :: 0 <= j < |bs| ==> bs[j].chatId != chatId
    ensures var m := NewMessage(senderId, message, now);
            Placed(bs, chatId, m, now) == bs + [Batch(chatId, [m], m.timestamp, m.timestamp)] &&
            OfChat(Placed(bs, chatId, m, now), chatId) == [Batch(chatId, [m], m.timestamp, m.timestamp)]
  {
    var m := NewMessage(senderId, message, now);
    var b := Batch(chatId, [m], now, now);
    assert NewBatch(chatId, now).messages + [m] == [m];
    WhereAppend(bs, [b], (x: Batch) => x.chatId == chatId);
    WhereNone(bs, (x: Batch) => x.chatId == chatId);
  }

  /** When the latest batch of the conversation is full, the message opens a
      new batch, with start and end time the message's time, and every
      existing batch stays as it was. */
  lemma PlacedFullBatch(bs: seq<Batch>, chatId: string, senderId: string, message: string, now: Time, i: nat)
    requires i < |bs| && bs[i].chatId == chatId && |bs[i].messages| >= BatchSizeLimit
    requires forall j :: 0 <= j < |bs| && bs[j].chatId == chatId ==> bs[j].endTime < bs[i].endTime || j == i
    ensures var m := NewMessage(senderId, message, now);
            Placed(bs, chatId, m, now) == bs + [Batch(chatId, [m], m.timestamp, m.timestamp)]
  {
    var m := NewMessage(senderId, message, now);
    var l := Latest(bs, chatId);
    assert l == Some(i);
    assert NewBatch(chatId, now).messages + [m] == [m];
  }

  /** Otherwise the message is appended at the end of the latest batch of the
      conversation, whose identifier, start time and earlier messages are kept
      and whose end time becomes now; no other batch changes. */
  lemma PlacedAppend(bs: seq<Batch>, chatId: string, m: Message, now: Time, i: nat)
    requires i < |bs| && bs[i].chatId == chatId && |bs[i].messages| < BatchSizeLimit
    requires forall j :: 0 <= j < |bs| && bs[j].chatId == chatId ==> bs[j].endTime < bs[i].endTime || j == i
    ensures var r := Placed(bs, chatId, m, now);
            |r| == |bs| &&
            r[i].chatId == chatId && r[i].startTime == bs[i].startTime &&
            r[i].messages == bs[i].messages + [m] && r[i].endTime == now &&
            forall j :: 0 <= j < |bs| && j != i ==> r[j] == bs[j]
  {
  }

  /** Sending never edits or drops stored batches: every old batch survives as
      it was, except the latest batch of the conversation, which may only grow
      by the new message at its end. */
  lemma PlacedAppendOnly(bs: seq<Batch>, chatId: string, m: Message, now: Time)
    ensures var r := Placed(bs, chatId, m, now);
            |bs| <= |r| <= |bs| + 1 &&
            (forall j :: 0 <= j < |bs| ==>
               r[j] == bs[j] ||
               (Latest(bs, chatId) == Some(j) && r[j].chatId == bs[j].chatId &&
                r[j].startTime == bs[j].startTime && r[j].messages == bs[j].messages + [m]))
  {
  }

  lemma ReplaceAdds(bs: seq<Batch>, i: nat, t: Batch, m: Message)
    requires i < |bs| && t.messages == bs[i].messages + [m]
    ensures multiset(Flatten(bs[i := t])) == multiset(Flatten(bs)) + multiset{m}
    ensures Count(bs[i := t]) == Count(bs) + 1
  {
    var r := bs[i := t];
    assert r[..i] == bs[..i] && r[i + 1..] == bs[i + 1..];
    FlattenSplit(bs, i);
    FlattenSplit(r, i);
    var a, c := Flatten(bs[..i]), Flatten(bs[i + 1..]);
    assert multiset(a + (bs[i].messages + [m]) + c) == multiset(a + bs[i].messages + c) + multiset{m};
  }

  /** The store's messages grow by exactly the new one. */
  lemma PlacedAddsMessage(bs: seq<Batch>, chatId: string, m: Message, now: Time)
    ensures multiset(Flatten(Placed(bs, chatId, m, now))) == multiset(Flatten(bs)) + multiset{m}
    ensures Count(Placed(bs, chatId, m, now)) == Count(bs) + 1
  {
    var t := Target(bs, chatId, m, now);
    if OpensBatch(bs, chatId) {
      FlattenAppend(bs, [t]);
      assert Flatten([t]) == [m] + Flatten([]);
    } else {
      ReplaceAdds(bs, Latest(bs, chatId).value, t, m);
    }
  }

  /** Only the sent-to conversation's batches change. */
  lemma PlacedOtherChats(bs: seq<Batch>, chatId: string, m: Message, now: Time, other: string)
    requires other != chatId
    ensures OfChat(Placed(bs, chatId, m, now), other) == OfChat(bs, other)
  {
    var t := Target(bs, chatId, m, now);
    var keep := (x: Batch) => x.chatId == other;
    if OpensBatch(bs, chatId) {
      WhereAppend(bs, [t], keep);
    } else {
      var i := Latest(bs, chatId).value;
      var r := Placed(bs, chatId, m, now);
      assert r[..i] == bs[..i] && r[i + 1..] == bs[i + 1..];
      WhereSplit(bs, i, keep);
      WhereSplit(r, i, keep);
    }
  }

  lemma WhereReplaceAdds(bs: seq<Batch>, i: nat, t: Batch, m: Message, keep: Batch -> bool)
    requires i < |bs| && keep(bs[i]) && keep(t) && t.messages == bs[i].messages + [m]
    ensures multiset(Flatten(Where(bs[i := t], keep))) == multiset(Flatten(Where(bs, keep))) + multiset{m}
  {
    var r := bs[i := t];
    assert r[..i] == bs[..i] && r[i + 1..] == bs[i + 1..];
    WhereSplit(bs, i, keep);
    WhereSplit(r, i, keep);
    var a, c := Where(bs[..i], keep), Where(bs[i + 1..], keep);
    ReplaceMiddle(a, bs[i], t, c);
    ReplaceAdds(a + [bs[i]] + c, |a|, t, m);
  }

  lemma ReplaceMiddle(a: seq<Batch>, x: Batch, y: Batch, c: seq<Batch>)
    ensures |a| < |a + [x] + c| && (a + [x] + c)[|a| := y] == a + [y] + c
  {
  }

  /** The conversation sent to gains exactly the new message, counted with
      multiplicity. */
  lemma PlacedChatGains(bs: seq<Batch>, chatId: string, m: Message, now: Time)
    ensures multiset(Flatten(OfChat(Placed(bs, chatId, m, now), chatId))) ==
            multiset(Flatten(OfChat(bs, chatId))) + multiset{m}
  {
    var t := Target(bs, chatId, m, now);
    var keep := (x: Batch) => x.chatId == chatId;
    if OpensBatch(bs, chatId) {
      WhereAppend(bs, [t], keep);
      assert Where([t], keep) == [t];
      FlattenAppend(OfChat(bs, chatId), [t]);
      assert Flatten([t]) == [m] + Flatten([]);
    } else {
      WhereReplaceAdds(bs, Latest(bs, chatId).value, t, m, keep);
    }
  }

  /** After a send to the conversation of `a` and `b`, its history holds the
      messages it held before and the new one, each exactly once more (the
      "no loss, no duplication" of the read path). */
  lemma HistoryAfterSend(bs: seq<Batch>, a: string, b: string, m: Message, now: Time)
    ensures multiset(History(Placed(bs, ChatId(a, b), m, now), a, b)) == multiset(History(bs, a, b)) + multiset{m}
  {
    PlacedChatGains(bs, ChatId(a, b), m, now);
    HistoryComplete(Placed(bs, ChatId(a, b), m, now), a, b);
    HistoryComplete(bs, a, b);
  }

  /** No batch ever holds more than `BatchSizeLimit` messages: a saved batch
      was appended to only while it held fewer. */
  lemma PlacedWellFormed(bs: seq<Batch>, chatId: string, m: Message, now: Time)
    requires AllWellFormed(bs) && ValidBatch(Target(bs, chatId, m, now))
    ensures AllWellFormed(Placed(bs, chatId, m, now))
  {
  }

  /** On a well-formed store, the save validates exactly when the identifier,
      the sender and the text are all present. */
  lemma SavesExactly(bs: seq<Batch>, chatId: string, m: Message, now: Time)
    requires AllWellFormed(bs)
    ensures ValidBatch(Target(bs, chatId, m, now)) <==> Present(chatId) && ValidMessage(m)
  {
    var b := if OpensBatch(bs, chatId) then NewBatch(chatId, now) else bs[Latest(bs, chatId).value];
    ValidBatchPush(b, m);
  }

  /** A batch holds messages whose times never decrease, its start time is its
      first message's time and its end time its last message's. */
  predicate Chronological(b: Batch) {
    |b.messages| >= 1 &&
    b.startTime == b.messages[0].timestamp &&
    b.endTime == b.messages[|b.messages| - 1].timestamp &&
    (forall i, j :: 0 <= i < j < |b.messages| ==> b.messages[i].timestamp <= b.messages[j].timestamp)
  }

  /** With one clock that does not run backwards, every batch's start time is
      its first message's time and its end time is its last message's. */
  lemma PlacedChronological(bs: seq<Batch>, chatId: string, senderId: string, message: string, now: Time)
    requires forall j :: 0 <= j < |bs| ==> Chronological(bs[j])
    requires forall j :: 0 <= j < |bs| && bs[j].chatId == chatId ==> bs[j].endTime <= now
    ensures var r := Placed(bs, chatId, NewMessage(senderId, message, now), now);
            forall j :: 0 <= j < |r| ==> Chronological(r[j])
  {
  }

  /** Every batch after a send ends at or before `now` when every batch did
      before it: only the saved batch's end time moves, and it moves to `now`. */
  lemma PlacedEndsBy(bs: seq<Batch>, chatId: string, m: Message, now: Time)
    requires forall j :: 0 <= j < |bs| ==> bs[j].endTime <= now
    ensures var r := Placed(bs, chatId, m, now);
            forall j :: 0 <= j < |r| ==> r[j].endTime <= now
    ensures var r := Placed(bs, chatId, m, now);
            forall j :: 0 <= j < |bs| ==>
              r[j].endTime == bs[j].endTime || (Latest(bs, chatId) == Some(j) && r[j].endTime == now)
    ensures var r := Placed(bs, chatId, m, now);
            |r| == |bs| + 1 ==> r[|bs|].endTime == now
  {
  }

  // ------------------------------------------------------------------ the server

  class ChatServer {
    /** The Batch collection, in insertion order. */
    var batches: seq<Batch>
    /** socket.io's rooms: the connections joined to each conversation. */
    var rooms: map<string, set<ConnId>>
    /** Every join so far, in order. */
    ghost var joined: seq<(ConnId, string)>
    /** The latest clock reading any handler has taken. */
    ghost var clock: Time

    ghost predicate Valid()
      reads this
    {
      AllWellFormed(batches) && rooms == Joins(joined)
    }

    /** Every stored batch is chronological and ends at or before the clock. */
    ghost predicate Ordered()
      reads this
    {
      forall j :: 0 <= j < |batches| ==> Chronological(batches[j]) && batches[j].endTime <= clock
    }

    constructor (ghost start: Time)
      ensures Valid() && Ordered()
      ensures batches == [] && rooms == map[] && joined == [] && clock == start
    {
      batches := [];
      rooms := map[];
      joined := [];
      clock := start;
    }

    /** The `joinChat` handler: the connection joins the room; other rooms and
        the store are unchanged. */
    method JoinChat(conn: ConnId, chatId: string)
      requires Valid()
      modifies this
      ensures Valid()
      ensures batches == old(batches) && clock == old(clock)
      ensures joined == old(joined) + [(conn, chatId)]
      ensures rooms == Join(old(rooms), conn, chatId)
      ensures Members(rooms, chatId) == old(Members(rooms, chatId)) + {conn}
      ensures forall other :: other != chatId ==> Members(rooms, other) == old(Members(rooms, other))
    {
      rooms := rooms[chatId := Members(rooms, chatId) + {conn}];
      joined := joined + [(conn, chatId)];
      assert joined[..|joined| - 1] == old(joined);
      forall other | other != chatId ensures Members(rooms, other) == old(Members(rooms, other)) {
        JoinMembers(old(rooms), conn, chatId, other);
      }
    }

    /** The `sendMessage` handler. `storageOk` says whether the store answers
        the lookup and the save; when the save fails, for that reason or
        because validation rejects the document, nothing is stored and
        nothing is emitted. */
    method SendMessage(senderId: string, message: string, chatId: string, now: Time, storageOk: bool)
      returns (emitted: Option<Emission>)
      requires Valid()
      modifies this
      ensures Valid()
      ensures rooms == old(rooms) && joined == old(joined)
      ensures clock == if now > old(clock) then now else old(clock)
      ensures old(Ordered()) && old(clock) <= now ==> Ordered()
      ensures var m := NewMessage(senderId, message, now);
              if Saves(old(batches), chatId, m, now, storageOk) then
                batches == Placed(old(batches), chatId, m, now) &&
                emitted == Some(Emission(chatId, Members(rooms, chatId), Entry(senderId, message, now)))
              else
                batches == old(batches) && emitted == None
      ensures emitted.Some? <==> storageOk && Present(chatId) && Present(senderId) && Present(message)
      ensures emitted.Some? ==> emitted.value.recipients == set j | j in joined && j.1 == chatId :: j.0
    {
      var m := NewMessage(senderId, message, now);
      SavesExactly(batches, chatId, m, now);
      // find the latest batch for this chat
      var latest := Latest(batches, chatId);
      var batch: Batch;
      var isNew: bool;
      if latest.None? || |batches[latest.value].messages| >= BatchSizeLimit {
        batch := NewBatch(chatId, now);
        isNew := true;
      } else {
        batch := batches[latest.value];
        isNew := false;
      }
      batch := batch.(messages := batch.messages + [m]);
      batch := batch.(endTime := now);
      // save, then emit
      ghost var ordered := Ordered() && clock <= now;
      if ordered {
        PlacedChronological(batches, chatId, senderId, message, now);
        PlacedEndsBy(batches, chatId, m, now);
      }
      if now > clock {
        clock := now;
      }
      if storageOk && ValidBatch(batch) {
        PlacedWellFormed(batches, chatId, m, now);
        if isNew {
          batches := batches + [batch];
        } else {
          batches := batches[latest.value := batch];
        }
        emitted := Some(Emission(chatId, Members(rooms, chatId), Entry(senderId, message, now)));
        JoinsMembers(joined, chatId);
      } else {
        emitted := None;
      }
    }
  }
}
