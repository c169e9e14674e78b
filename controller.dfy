/** The read paths of controller/chatController.js: the order-independent
    conversation identifier, the flattened history of one conversation, and
    the per-conversation grouping of every batch that involves a user. */
module Controller {
  import opened Model
  import opened Store
  import opened Text

  /** `[userId, receiverId].sort().join("_")`. */
  function ChatId(a: string, b: string): string {
    if Less(b, a) then b + "_" + a else a + "_" + b
  }

  /** Either order of the two participants addresses the same conversation. */
  lemma ChatIdSymmetric(a: string, b: string)
    ensures ChatId(a, b) == ChatId(b, a)
  {
    LessAsymmetric(a, b);
    LessTotal(a, b);
  }

  /** The identifier is the lexicographically smaller participant, then "_",
      then the larger. */
  lemma ChatIdSorted(a: string, b: string)
    ensures LessEq(a, b) ==> ChatId(a, b) == a + "_" + b
    ensures LessEq(b, a) ==> ChatId(a, b) == b + "_" + a
  {
    LessAsymmetric(a, b);
    LessIrreflexive(a);
  }

  /** The `$or` filter of the user-chat query: the identifier starts with
      `userId_` or ends with `_userId`, ignoring case. */
  predicate InvolvesUser(chatId: string, userId: string) {
    StartsWithIgnoringCase(chatId, userId + "_") || EndsWithIgnoringCase(chatId, "_" + userId)
  }

  /** The conversation of `a` and `b` is found by the user-chat query of
      either participant. */
  lemma ChatIdInvolvesBoth(a: string, b: string)
    ensures InvolvesUser(ChatId(a, b), a) && InvolvesUser(ChatId(a, b), b)
  {
    var lo, hi := if Less(b, a) then b else a, if Less(b, a) then a else b;
    var id := ChatId(a, b);
    assert id == lo + "_" + hi;
    assert id[..|lo + "_"|] == lo + "_";
    assert id[|id| - |"_" + hi|..] == "_" + hi;
  }

  // ---------------------------------------------------------------- getMessages

  /** The batches of the conversation, ascending by start time. */
  function ChatBatches(store: seq<Batch>, userId: string, receiverId: string): seq<Batch> {
    SortByStart(OfChat(store, ChatId(userId, receiverId)), false)
  }

  /** The messages of the conversation, batch after batch. */
  function History(store: seq<Batch>, userId: string, receiverId: string): seq<Message> {
    Flatten(ChatBatches(store, userId, receiverId))
  }

  /** The response of `getMessages`. */
  function GetMessages(store: seq<Batch>, userId: string, receiverId: string): (r: seq<Entry>)
    ensures |r| == |History(store, userId, receiverId)|
    ensures forall i :: 0 <= i < |r| ==> r[i] == View(History(store, userId, receiverId)[i])
  {
    Entries(History(store, userId, receiverId))
  }

  /** `getMessages` reads exactly the batches stored under the resolved
      identifier, in ascending order of start time. */
  lemma ChatBatchesSelected(store: seq<Batch>, userId: string, receiverId: string)
    ensures SortedByStart(ChatBatches(store, userId, receiverId), false)
    ensures forall b :: b in ChatBatches(store, userId, receiverId) <==>
              b in store && b.chatId == ChatId(userId, receiverId)
    ensures multiset(ChatBatches(store, userId, receiverId)) == multiset(OfChat(store, ChatId(userId, receiverId)))
  {
    var s := ChatBatches(store, userId, receiverId);
    SortByStartSpec(OfChat(store, ChatId(userId, receiverId)), false);
    WhereSpec(store, (b: Batch) => b.chatId == ChatId(userId, receiverId));
    forall b ensures b in s <==> b in OfChat(store, ChatId(userId, receiverId)) {
      assert b in s <==> b in multiset(s);
    }
  }

  /** The history holds every message of every batch of the conversation, each
      exactly as often as it is stored, and its length is their number. */
  lemma HistoryComplete(store: seq<Batch>, userId: string, receiverId: string)
    ensures multiset(History(store, userId, receiverId)) == multiset(Flatten(OfChat(store, ChatId(userId, receiverId))))
    ensures |History(store, userId, receiverId)| == Count(OfChat(store, ChatId(userId, receiverId)))
  {
    var chat := OfChat(store, ChatId(userId, receiverId));
    FlattenSort(chat, false);
    FlattenLength(chat);
    assert |multiset(History(store, userId, receiverId))| == |multiset(Flatten(chat))|;
  }

  /** Message `k` of the `i`-th batch (in ascending start time) is found in the
      history after the messages of all earlier batches. */
  lemma HistoryAt(store: seq<Batch>, userId: string, receiverId: string, i: nat, k: nat)
    requires i < |ChatBatches(store, userId, receiverId)|
    requires k < |ChatBatches(store, userId, receiverId)[i].messages|
    ensures var bs := ChatBatches(store, userId, receiverId);
            Count(bs[..i]) + k < |History(store, userId, receiverId)| &&
            History(store, userId, receiverId)[Count(bs[..i]) + k] == bs[i].messages[k]
  {
    FlattenAt(ChatBatches(store, userId, receiverId), i, k);
  }

  /** Asking for the history of (a, b) or of (b, a) gives the same answer. */
  lemma GetMessagesSymmetric(store: seq<Batch>, a: string, b: string)
    ensures GetMessages(store, a, b) == GetMessages(store, b, a)
  {
    ChatIdSymmetric(a, b);
  }

  // ---------------------------------------------------------------- getAllChats

  /** One element of the `getAllChats` response. */
  datatype ChatGroup = ChatGroup(chatId: string, messages: seq<Message>)

  /** The batches the user-chat query fetches: those whose identifier involves
      the user, most recent start time first. */
  function UserBatches(store: seq<Batch>, userId: string): seq<Batch> {
    SortByStart(Where(store, (b: Batch) => InvolvesUser(b.chatId, userId)), true)
  }

  lemma UserBatchesSelected(store: seq<Batch>, userId: string)
    ensures SortedByStart(UserBatches(store, userId), true)
    ensures forall b :: b in UserBatches(store, userId) <==> b in store && InvolvesUser(b.chatId, userId)
    ensures multiset(UserBatches(store, userId)) == multiset(Where(store, (b: Batch) => InvolvesUser(b.chatId, userId)))
  {
    var s := UserBatches(store, userId);
    SortByStartSpec(Where(store, (b: Batch) => InvolvesUser(b.chatId, userId)), true);
    WhereSpec(store, (b: Batch) => InvolvesUser(b.chatId, userId));
    forall b ensures b in s <==> b in Where(store, (b: Batch) => InvolvesUser(b.chatId, userId)) {
      assert b in s <==> b in multiset(s);
    }
  }

  predicate HasChat(bs: seq<Batch>, k: string) {
    exists j :: 0 <= j < |bs| && bs[j].chatId == k
  }

  predicate Distinct(ks: seq<string>) {
    forall i, j :: 0 <= i < j < |ks| ==> ks[i] != ks[j]
  }

  /** The conversation identifiers of `bs` in order of first appearance. */
  function FirstSeen(bs: seq<Batch>): seq<string> {
    if bs == [] then []
    else
      var p := FirstSeen(bs[..|bs| - 1]);
      var k := bs[|bs| - 1].chatId;
      if k in p then p else p + [k]
  }

  /** The messages of conversation `k` within `bs`, batch after batch. */
  function MessagesOf(bs: seq<Batch>, k: string): seq<Message> {
    Flatten(OfChat(bs, k))
  }

  function GroupsOver(bs: seq<Batch>, keys: seq<string>): seq<ChatGroup> {
    seq(|keys|, j requires 0 <= j < |keys| => ChatGroup(keys[j], MessagesOf(bs, keys[j])))
  }

  /** The grouping `getAllChats` is meant to produce. */
  function Groups(bs: seq<Batch>): seq<ChatGroup> {
    GroupsOver(bs, FirstSeen(bs))
  }

  lemma {:induction false} FirstSeenMembers(bs: seq<Batch>)
    ensures Distinct(FirstSeen(bs))
    ensures forall k :: k in FirstSeen(bs) <==> HasChat(bs, k)
  {
    if bs != [] {
      var init := bs[..|bs| - 1];
      FirstSeenMembers(init);
      forall k ensures HasChat(bs, k) <==> HasChat(init, k) || k == bs[|bs| - 1].chatId {
        if HasChat(bs, k) && k != bs[|bs| - 1].chatId {
          var j :| 0 <= j < |bs| && bs[j].chatId == k;
          assert init[j].chatId == k;
        }
        if HasChat(init, k) {
          var j :| 0 <= j < |init| && init[j].chatId == k;
          assert bs[j].chatId == k;
        }
      }
    }
  }

  /** Identifiers first seen among the first `p` batches precede all others. */
  lemma {:induction false} FirstSeenPrefix(bs: seq<Batch>, p: nat)
    requires p <= |bs|
    ensures FirstSeen(bs[..p]) <= FirstSeen(bs)
  {
    if p < |bs| {
      FirstSeenPrefix(bs[..|bs| - 1], p);
      assert bs[..|bs| - 1][..p] == bs[..p];
    } else {
      assert bs[..p] == bs;
    }
  }

  /** The groups are one per distinct fetched conversation, ordered by first
      appearance: the conversations met among any first `p` batches are
      exactly those of the first groups. */
  lemma GroupsOnePerChat(bs: seq<Batch>)
    ensures seq(|Groups(bs)|, i requires 0 <= i < |Groups(bs)| => Groups(bs)[i].chatId) == FirstSeen(bs)
    ensures Distinct(seq(|Groups(bs)|, i requires 0 <= i < |Groups(bs)| => Groups(bs)[i].chatId))
    ensures forall k :: (exists i :: 0 <= i < |Groups(bs)| && Groups(bs)[i].chatId == k) <==> HasChat(bs, k)
    ensures forall p :: 0 <= p <= |bs| ==> FirstSeen(bs[..p]) <= FirstSeen(bs)
  {
    FirstSeenMembers(bs);
    var ks := FirstSeen(bs);
    assert seq(|Groups(bs)|, i requires 0 <= i < |Groups(bs)| => Groups(bs)[i].chatId) == ks;
    forall k ensures (exists i :: 0 <= i < |Groups(bs)| && Groups(bs)[i].chatId == k) <==> k in ks {
      if k in ks {
        var i :| 0 <= i < |ks| && ks[i] == k;
        assert Groups(bs)[i].chatId == k;
      }
    }
    forall p | 0 <= p <= |bs| ensures FirstSeen(bs[..p]) <= FirstSeen(bs) {
      FirstSeenPrefix(bs, p);
    }
  }

  /** Every message held by one group after another. */
  function AllMessages(gs: seq<ChatGroup>): seq<Message> {
    if gs == [] then [] else AllMessages(gs[..|gs| - 1]) + gs[|gs| - 1].messages
  }

  /** The sum of the group sizes. */
  function TotalSize(gs: seq<ChatGroup>): nat {
    if gs == [] then 0 else TotalSize(gs[..|gs| - 1]) + |gs[|gs| - 1].messages|
  }

  lemma {:induction false} TotalSizeIsLength(gs: seq<ChatGroup>)
    ensures TotalSize(gs) == |AllMessages(gs)|
  {
    if gs != [] {
      TotalSizeIsLength(gs[..|gs| - 1]);
    }
  }

  lemma MessagesOfAppend(bs: seq<Batch>, x: Batch, k: string)
    ensures MessagesOf(bs + [x], k) == MessagesOf(bs, k) + (if x.chatId == k then x.messages else [])
  {
    WhereAppend(bs, [x], (b: Batch) => b.chatId == k);
    FlattenAppend(OfChat(bs, k), OfChat([x], k));
    assert OfChat([x], k) == if x.chatId == k then [x] else [];
    assert Flatten([x]) == x.messages + Flatten([]);
  }

  lemma MessagesOfAbsent(bs: seq<Batch>, k: string)
    requires !HasChat(bs, k)
    ensures MessagesOf(bs, k) == []
  {
    WhereNone(bs, (b: Batch) => b.chatId == k);
  }

  /** Adding a batch of conversation `x.chatId` changes only that group, by
      `x`'s messages, when the group is among `keys`. */
  lemma {:induction false} CollectStep(bs: seq<Batch>, x: Batch, keys: seq<string>)
    requires Distinct(keys)
    ensures multiset(AllMessages(GroupsOver(bs + [x], keys))) ==
            multiset(AllMessages(GroupsOver(bs, keys))) + (if x.chatId in keys then multiset(x.messages) else multiset{})
  {
    if keys != [] {
      var n := |keys| - 1;
      var init := keys[..n];
      assert Distinct(init);
      assert GroupsOver(bs + [x], keys)[..n] == GroupsOver(bs + [x], init);
      assert GroupsOver(bs, keys)[..n] == GroupsOver(bs, init);
      CollectStep(bs, x, init);
      MessagesOfAppend(bs, x, keys[n]);
      assert keys == init + [keys[n]];
      assert x.chatId in keys <==> x.chatId in init || x.chatId == keys[n];
      assert x.chatId == keys[n] ==> x.chatId !in init;
    }
  }

  /** A batch of a conversation not met before opens a new, last group that
      holds exactly that batch's messages. */
  lemma CollectNew(bs: seq<Batch>, x: Batch)
    requires x.chatId !in FirstSeen(bs)
    ensures multiset(AllMessages(Groups(bs + [x]))) ==
            multiset(AllMessages(GroupsOver(bs + [x], FirstSeen(bs)))) + multiset(x.messages)
  {
    var ks := FirstSeen(bs);
    assert (bs + [x])[..|bs + [x]| - 1] == bs;
    var gs := Groups(bs + [x]);
    assert gs[..|ks|] == GroupsOver(bs + [x], ks);
    FirstSeenMembers(bs);
    MessagesOfAppend(bs, x, x.chatId);
    MessagesOfAbsent(bs, x.chatId);
    assert gs[|ks|].messages == x.messages;
  }

  /** No message is lost or duplicated by the grouping: the groups hold, with
      multiplicity, exactly the messages of the fetched batches, and their sizes
      add up to the number of those messages. */
  lemma {:induction false} GroupsConserve(bs: seq<Batch>)
    ensures multiset(AllMessages(Groups(bs))) == multiset(Flatten(bs))
    ensures TotalSize(Groups(bs)) == Count(bs)
  {
    if bs != [] {
      var init := bs[..|bs| - 1];
      var x := bs[|bs| - 1];
      assert bs == init + [x];
      var ks := FirstSeen(init);
      GroupsConserve(init);
      FirstSeenMembers(init);
      CollectStep(init, x, ks);
      FlattenAppend(init, [x]);
      assert Flatten([x]) == x.messages + Flatten([]);
      assert multiset(Flatten(bs)) == multiset(AllMessages(Groups(init))) + multiset(x.messages);
      if x.chatId !in ks {
        CollectNew(init, x);
      } else {
        assert FirstSeen(bs) == ks;
      }
    }
    GroupsCount(bs);
  }

  lemma GroupsCount(bs: seq<Batch>)
    requires multiset(AllMessages(Groups(bs))) == multiset(Flatten(bs))
    ensures TotalSize(Groups(bs)) == Count(bs)
  {
    TotalSizeIsLength(Groups(bs));
    FlattenLength(bs);
    assert |multiset(AllMessages(Groups(bs)))| == |multiset(Flatten(bs))|;
  }

  /** The state of the `chats` dictionary after walking `bs`: one entry per
      conversation met, in `keys` in the order they were opened, each holding
      that conversation's messages so far. */
  ghost predicate Grouped(bs: seq<Batch>, chats: map<string, seq<Message>>, keys: seq<string>) {
    keys == FirstSeen(bs) &&
    (forall k :: k in chats <==> k in keys) &&
    (forall k :: k in chats ==> chats[k] == MessagesOf(bs, k))
  }

  lemma FirstSeenStep(bs: seq<Batch>, x: Batch)
    ensures FirstSeen(bs + [x]) == if x.chatId in FirstSeen(bs) then FirstSeen(bs) else FirstSeen(bs) + [x.chatId]
  {
    assert (bs + [x])[..|bs + [x]| - 1] == bs;
  }

  lemma MessagesOfStep(bs: seq<Batch>, x: Batch)
    ensures forall k :: MessagesOf(bs + [x], k) == MessagesOf(bs, k) + (if x.chatId == k then x.messages else [])
  {
    forall k ensures MessagesOf(bs + [x], k) == MessagesOf(bs, k) + (if x.chatId == k then x.messages else []) {
      MessagesOfAppend(bs, x, k);
    }
  }

  lemma GroupedOpen(bs: seq<Batch>, x: Batch, chats: map<string, seq<Message>>, keys: seq<string>)
    requires Grouped(bs, chats, keys) && x.chatId !in chats
    ensures Grouped(bs + [x], chats[x.chatId := x.messages], keys + [x.chatId])
  {
    FirstSeenStep(bs, x);
    MessagesOfStep(bs, x);
    FirstSeenMembers(bs);
    MessagesOfAbsent(bs, x.chatId);
  }

  lemma GroupedExtend(bs: seq<Batch>, x: Batch, chats: map<string, seq<Message>>, keys: seq<string>)
    requires Grouped(bs, chats, keys) && x.chatId in chats
    ensures Grouped(bs + [x], chats[x.chatId := chats[x.chatId] + x.messages], keys)
  {
    var c := chats[x.chatId := chats[x.chatId] + x.messages];
    FirstSeenStep(bs, x);
    assert FirstSeen(bs + [x]) == keys;
    forall k | k in c ensures c[k] == MessagesOf(bs + [x], k) {
      MessagesOfAppend(bs, x, k);
    }
  }

  /** The `getAllChats` handler: fetch the user's batches, then walk them once,
      opening a group the first time a conversation is met and appending each
      batch's messages to its group; the groups come out in the order they
      were opened. */
  method GetAllChats(store: seq<Batch>, userId: string) returns (chatList: seq<ChatGroup>)
    ensures chatList == Groups(UserBatches(store, userId))
  {
    var batches := UserBatches(store, userId);
    var chats: map<string, seq<Message>> := map[];
    var keys: seq<string> := [];
    var i := 0;
    while i < |batches|
      invariant 0 <= i <= |batches|
      invariant Grouped(batches[..i], chats, keys)
    {
      var batch := batches[i];
      assert batches[..i + 1] == batches[..i] + [batch];
      if batch.chatId !in chats {
        GroupedOpen(batches[..i], batch, chats, keys);
        chats := chats[batch.chatId := []];
        keys := keys + [batch.chatId];
      } else {
        GroupedExtend(batches[..i], batch, chats, keys);
      }
      chats := chats[batch.chatId := chats[batch.chatId] + batch.messages];
      i := i + 1;
    }
    assert batches[..i] == batches;
    chatList := seq(|keys|, j requires 0 <= j < |keys| => ChatGroup(keys[j], chats[keys[j]]));
  }
}
