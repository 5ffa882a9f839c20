/** Likes, dislikes, blocks, chats and messages, one transaction at a time. Each
    repository method is proved against a function on the tables. */
module RibbonStore {
  import opened Common
  import opened Schema

  datatype StoreError = TargetUserNotFound | UsersExcluded | ConstraintViolation | ChatNotFound

  predicate HasActiveProfile(db: Tables, user: int) {
    exists id :: id in db.profiles && db.profiles[id].userId == user && db.profiles[id].isActive
  }

  predicate IsChatOf(db: Tables, id: int, a: int, b: int) {
    id in db.chats && IsBetween(db.chats[id], a, b)
  }

  predicate HasChat(db: Tables, a: int, b: int) {
    exists id :: id in db.chats && IsChatOf(db, id, a, b)
  }

  /** SELECT id FROM chats WHERE the pair matches; the unique index leaves one answer. */
  ghost function ChatOf(db: Tables, a: int, b: int): (id: int)
    requires HasChat(db, a, b)
    ensures IsChatOf(db, id, a, b)
  {
    var id :| id in db.chats && IsChatOf(db, id, a, b);
    id
  }

  predicate IsBanned(db: Tables, a: int, b: int) {
    (a, b) in db.exclusions && db.exclusions[(a, b)]
  }

  // ----- The transactions as functions on the tables -----

  /** INSERT INTO chats ... ON CONFLICT DO NOTHING: the sequence moves on either way. */
  function InsertChat(db: Tables, a: int, b: int): Tables {
    if HasChat(db, a, b) then db.(nextChatId := db.nextChatId + 1)
    else db.(chats := db.chats[db.nextChatId := Chat(a, b, true)], nextChatId := db.nextChatId + 1)
  }

  ghost function LikeTx(db: Tables, a: int, b: int): (Tables, Result<Option<int>, StoreError>) {
    if !HasActiveProfile(db, b) then (db, Failure(TargetUserNotFound))
    else if ExcludedEitherWay(db, a, b) then (db, Failure(UsersExcluded))
    else if a == b || a !in db.users || b !in db.users then (db, Failure(ConstraintViolation))
    else
      var liked := db.(swipes := db.swipes + {(a, b)});
      if (b, a) !in liked.swipes then (liked, Success(None))
      else
        var matched := InsertChat(liked, a, b);
        InsertedChatExists(liked, a, b);
        (matched, Success(Some(ChatOf(matched, a, b))))
  }

  lemma InsertedChatExists(db: Tables, a: int, b: int)
    ensures HasChat(InsertChat(db, a, b), a, b)
  {
    if HasChat(db, a, b) {
      var id := ChatOf(db, a, b);
      assert IsChatOf(InsertChat(db, a, b), id, a, b);
    } else {
      assert IsChatOf(InsertChat(db, a, b), db.nextChatId, a, b);
    }
  }

  function DislikeTx(db: Tables, a: int, b: int): (Tables, Result<(), StoreError>) {
    if b !in db.users then (db, Failure(TargetUserNotFound))
    else if a == b || a !in db.users then (db, Failure(ConstraintViolation))
    else (db.(exclusions := db.exclusions[(a, b) := IsBanned(db, a, b)]), Success(()))
  }

  function DeactivateBetween(chats: map<int, Chat>, a: int, b: int): map<int, Chat> {
    map id | id in chats :: if IsBetween(chats[id], a, b) then chats[id].(isActive := false) else chats[id]
  }

  function BlockTx(db: Tables, a: int, b: int): (Tables, Result<(), StoreError>) {
    if b !in db.users then (db, Failure(TargetUserNotFound))
    else if a == b || a !in db.users then (db, Failure(ConstraintViolation))
    else (db.(exclusions := db.exclusions[(a, b) := true], chats := DeactivateBetween(db.chats, a, b)), Success(()))
  }

  function UnblockTx(db: Tables, a: int, b: int): Tables {
    if IsBanned(db, a, b) then db.(exclusions := db.exclusions - {(a, b)}) else db
  }

  predicate CanWrite(db: Tables, user: int, chat: int) {
    chat in db.chats && db.chats[chat].isActive && IsParticipant(db.chats[chat], user)
  }

  function SendTx(db: Tables, user: int, chat: int, body: string): (Tables, Result<Message, StoreError>) {
    if !CanWrite(db, user, chat) then (db, Failure(ChatNotFound))
    else
      var message := Message(chat, user, body, false);
      (db.(messages := db.messages + [message]), Success(message))
  }

  /** UPDATE messages SET is_read = TRUE for the chat's messages of the other side. */
  function MarkMessages(messages: seq<Message>, user: int, chat: int): (marked: seq<Message>)
    ensures |marked| == |messages|
  {
    seq(|messages|, i requires 0 <= i < |messages| =>
      if messages[i].chat == chat && messages[i].sender != user then messages[i].(isRead := true) else messages[i])
  }

  function MarkReadTx(db: Tables, user: int, chat: int): (Tables, Result<(), StoreError>) {
    if !(chat in db.chats && IsParticipant(db.chats[chat], user)) then (db, Failure(ChatNotFound))
    else (db.(messages := MarkMessages(db.messages, user, chat)), Success(()))
  }

  // ----- The repositories -----

  class Database {
    var users: map<int, bool>
    var profiles: map<int, Profile>
    var swipes: set<Pair>
    var exclusions: map<Pair, bool>
    var chats: map<int, Chat>
    var nextChatId: int
    var messages: seq<Message>

    function State(): Tables
      reads this
    {
      Tables(users, profiles, swipes, exclusions, chats, nextChatId, messages)
    }

    constructor ()
      ensures State() == EMPTY
    {
      users, profiles, swipes, exclusions := map[], map[], {}, map[];
      chats, nextChatId, messages := map[], 1, [];
    }
  }

  /** The unique index chats_unique_pair_uq. */
  ghost predicate UniqueChats(db: Tables) {
    forall i, j :: i in db.chats && j in db.chats && IsBetween(db.chats[i], db.chats[j].user1, db.chats[j].user2) ==> i == j
  }

  /** The chat a match is answered with: the pair's only one, as it was, or new and active. */
  ghost predicate IsMatchChat(before: map<int, Chat>, after: map<int, Chat>, id: int, a: int, b: int) {
    && id in after && {after[id].user1, after[id].user2} == {a, b}
    && after.Keys == before.Keys + {id}
    && (id !in before ==> after[id].isActive && forall i :: i in before ==> {before[i].user1, before[i].user2} != {a, b})
  }

  class RibbonRepository {
    const db: Database

    constructor (db: Database)
      ensures this.db == db
    {
      this.db := db;
    }

    method CreateLike(actor: int, target: int) returns (r: Result<Option<int>, StoreError>)
      requires UniqueChats(db.State()) && db.nextChatId !in db.chats
      modifies db
      ensures (db.State(), r) == LikeTx(old(db.State()), actor, target)
      ensures r.Failure? ==> db.State() == old(db.State())
      ensures (forall id :: id in db.profiles && db.profiles[id].userId == target ==> !db.profiles[id].isActive) ==>
                r == Failure(TargetUserNotFound)
      ensures (exists id :: id in db.profiles && db.profiles[id].userId == target && db.profiles[id].isActive) ==>
                if (actor, target) in db.exclusions || (target, actor) in db.exclusions then r == Failure(UsersExcluded)
                else if actor == target || actor !in db.users || target !in db.users then r == Failure(ConstraintViolation)
                else r.Success?
      ensures db.users == old(db.users) && db.profiles == old(db.profiles) && db.exclusions == old(db.exclusions)
              && db.messages == old(db.messages)
      ensures r.Success? ==>
                && db.swipes == old(db.swipes) + {(actor, target)}
                && (r.value.Some? <==> (target, actor) in old(db.swipes))
                && (forall id :: id in old(db.chats) ==> id in db.chats && db.chats[id] == old(db.chats)[id])
                && (r.value.None? ==> db.chats == old(db.chats))
                && (r.value.Some? ==> IsMatchChat(old(db.chats), db.chats, r.value.value, actor, target))
    {
      if !HasActiveProfile(db.State(), target) {
        return Failure(TargetUserNotFound);
      }
      if ExcludedEitherWay(db.State(), actor, target) {
        return Failure(UsersExcluded);
      }
      if actor == target || actor !in db.users || target !in db.users {
        return Failure(ConstraintViolation);
      }
      db.swipes := db.swipes + {(actor, target)};
      var mutual := (target, actor) in db.swipes;
      if !mutual {
        return Success(None);
      }
      ghost var liked := db.State();
      if !HasChat(db.State(), actor, target) {
        db.chats := db.chats[db.nextChatId := Chat(actor, target, true)];
      }
      db.nextChatId := db.nextChatId + 1;
      assert db.State() == InsertChat(liked, actor, target);
      InsertedChatExists(liked, actor, target);
      var chatId :| chatId in db.chats && IsChatOf(db.State(), chatId, actor, target);
      ChatIsUnique(liked, actor, target, chatId);
      return Success(Some(chatId));
    }

    method CreateDislike(actor: int, target: int) returns (r: Result<(), StoreError>)
      modifies db
      ensures (db.State(), r) == DislikeTx(old(db.State()), actor, target)
      ensures target !in db.users ==> r == Failure(TargetUserNotFound)
      ensures target in db.users ==> (r.Success? <==> actor != target && actor in db.users)
      ensures db.exclusions == if r.Success? && (actor, target) !in old(db.exclusions)
                               then old(db.exclusions)[(actor, target) := false] else old(db.exclusions)
      ensures db.users == old(db.users) && db.profiles == old(db.profiles) && db.swipes == old(db.swipes)
              && db.chats == old(db.chats) && db.messages == old(db.messages)
    {
      if target !in db.users {
        return Failure(TargetUserNotFound);
      }
      if actor == target || actor !in db.users {
        return Failure(ConstraintViolation);
      }
      if (actor, target) !in db.exclusions {
        db.exclusions := db.exclusions[(actor, target) := false];
      }
      assert db.exclusions == old(db.exclusions)[(actor, target) := IsBanned(old(db.State()), actor, target)];
      return Success(());
    }

    method CreateBlock(actor: int, target: int) returns (r: Result<(), StoreError>)
      modifies db
      ensures (db.State(), r) == BlockTx(old(db.State()), actor, target)
      ensures target !in db.users ==> r == Failure(TargetUserNotFound)
      ensures target in db.users ==> (r.Success? <==> actor != target && actor in db.users)
      ensures r.Failure? ==> db.State() == old(db.State())
      ensures r.Success? ==> db.exclusions == old(db.exclusions)[(actor, target) := true]
      ensures r.Success? ==> db.chats.Keys == old(db.chats).Keys && forall id :: id in db.chats ==>
                db.chats[id] == if {old(db.chats)[id].user1, old(db.chats)[id].user2} == {actor, target}
                                then old(db.chats)[id].(isActive := false) else old(db.chats)[id]
      ensures db.users == old(db.users) && db.profiles == old(db.profiles) && db.swipes == old(db.swipes)
              && db.messages == old(db.messages)
    {
      if target !in db.users {
        return Failure(TargetUserNotFound);
      }
      if actor == target || actor !in db.users {
        return Failure(ConstraintViolation);
      }
      db.exclusions := db.exclusions[(actor, target) := true];
      db.chats := map id | id in db.chats ::
        if db.chats[id].isActive && IsBetween(db.chats[id], actor, target)
        then db.chats[id].(isActive := false) else db.chats[id];
      assert db.chats == DeactivateBetween(old(db.chats), actor, target);
      return Success(());
    }

    method RemoveBlock(actor: int, target: int)
      modifies db
      ensures db.State() == UnblockTx(old(db.State()), actor, target)
      ensures forall pair :: pair in db.exclusions <==>
                pair in old(db.exclusions) && (pair == (actor, target) ==> !old(db.exclusions)[pair])
      ensures forall pair :: pair in db.exclusions ==> db.exclusions[pair] == old(db.exclusions)[pair]
      ensures db.State().(exclusions := map[]) == old(db.State()).(exclusions := map[])
    {
      if (actor, target) in db.exclusions && db.exclusions[(actor, target)] {
        db.exclusions := db.exclusions - {(actor, target)};
      }
    }
  }

  /** With the unique index the id read back is the one ChatOf names. */
  lemma ChatIsUnique(liked: Tables, a: int, b: int, id: int)
    requires UniqueChats(liked) && liked.nextChatId !in liked.chats
    requires IsChatOf(InsertChat(liked, a, b), id, a, b)
    ensures HasChat(InsertChat(liked, a, b), a, b) && id == ChatOf(InsertChat(liked, a, b), a, b)
  {
    InsertedChatExists(liked, a, b);
    var matched := InsertChat(liked, a, b);
    if !HasChat(liked, a, b) {
      assert forall i :: i in liked.chats ==> !IsChatOf(liked, i, a, b);
      assert forall i :: IsChatOf(matched, i, a, b) ==> i == liked.nextChatId;
    }
  }

  class ChatRepository {
    const db: Database

    constructor (db: Database)
      ensures this.db == db
    {
      this.db := db;
    }

    method CreateMessage(user: int, chat: int, body: string) returns (r: Result<Message, StoreError>)
      modifies db
      ensures (db.State(), r) == SendTx(old(db.State()), user, chat, body)
      ensures r.Success? <==>
                chat in db.chats && db.chats[chat].isActive && (db.chats[chat].user1 == user || db.chats[chat].user2 == user)
      ensures r.Success? ==> r.value == Message(chat, user, body, false) && db.messages == old(db.messages) + [r.value]
      ensures r.Failure? ==> r.error == ChatNotFound && db.messages == old(db.messages)
      ensures db.State().(messages := []) == old(db.State()).(messages := [])
    {
      if chat in db.chats && db.chats[chat].isActive && IsParticipant(db.chats[chat], user) {
        var message := Message(chat, user, body, false);
        db.messages := db.messages + [message];
        return Success(message);
      }
      return Failure(ChatNotFound);
    }

    method MarkRead(user: int, chat: int) returns (r: Result<(), StoreError>)
      modifies db
      ensures (db.State(), r) == MarkReadTx(old(db.State()), user, chat)
      ensures r.Success? <==> chat in db.chats && (db.chats[chat].user1 == user || db.chats[chat].user2 == user)
      ensures r.Failure? ==> r.error == ChatNotFound && db.messages == old(db.messages)
      ensures r.Success? ==> |db.messages| == |old(db.messages)| && forall i :: 0 <= i < |db.messages| ==>
                var before := old(db.messages)[i];
                db.messages[i] == Message(before.chat, before.sender, before.body,
                                          before.isRead || (before.chat == chat && before.sender != user))
      ensures db.State().(messages := []) == old(db.State()).(messages := [])
    {
      var participant := EnsureParticipant(user, chat);
      if participant.Failure? {
        return participant;
      }
      var marked := [];
      for i := 0 to |db.messages|
        invariant db.State() == old(db.State())
        invariant marked == MarkMessages(db.messages, user, chat)[..i]
      {
        var message := db.messages[i];
        if message.chat == chat && message.sender != user && !message.isRead {
          marked := marked + [message.(isRead := true)];
        } else {
          marked := marked + [message];
        }
      }
      assert MarkMessages(db.messages, user, chat)[..|db.messages|] == MarkMessages(db.messages, user, chat);
      db.messages := marked;
      return Success(());
    }

    method EnsureParticipant(user: int, chat: int) returns (r: Result<(), StoreError>)
      ensures r == if chat in db.chats && IsParticipant(db.chats[chat], user) then Success(()) else Failure(ChatNotFound)
    {
      if chat in db.chats && IsParticipant(db.chats[chat], user) {
        return Success(());
      }
      return Failure(ChatNotFound);
    }

    /** ListMessages: the chat's messages after an id, in id order; ids count from 1. */
    method ListMessages(user: int, chat: int, after: int, limit: nat) returns (r: Result<seq<MessageRow>, StoreError>)
      ensures r == if chat in db.chats && IsParticipant(db.chats[chat], user)
                   then Success(Take(MessagesAfter(db.messages, chat, after), limit)) else Failure(ChatNotFound)
    {
      var participant := EnsureParticipant(user, chat);
      if participant.Failure? {
        return Failure(participant.error);
      }
      var rows := [];
      for i := 0 to |db.messages|
        invariant rows == MessagesAfter(db.messages[..i], chat, after)
      {
        assert db.messages[..i + 1] == db.messages[..i] + [db.messages[i]];
        if db.messages[i].chat == chat && i + 1 > after {
          rows := rows + [MessageRow(i + 1, db.messages[i])];
        }
      }
      assert db.messages[..|db.messages|] == db.messages;
      return Success(Take(rows, limit));
    }
  }

  /** A message with its id, which is its place in the table. */
  datatype MessageRow = MessageRow(id: int, message: Message)

  function MessagesAfter(messages: seq<Message>, chat: int, after: int): seq<MessageRow> {
    if messages == [] then []
    else
      var last := |messages| - 1;
      MessagesAfter(messages[..last], chat, after)
      + (if messages[last].chat == chat && |messages| > after then [MessageRow(|messages|, messages[last])] else [])
  }
}
