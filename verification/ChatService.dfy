/** The chat list and message history endpoints, and clients paging through them. */
module ChatService {
  import opened Common
  import opened Cursors
  import opened Schema
  import opened Paging
  import opened RibbonStore
  import opened RibbonRuns

  datatype ChatError = InvalidChatId | InvalidPage | Store(error: StoreError)

  // ----- Messages -----

  const MESSAGE_ID := (row: MessageRow) => row.id

  /** Identifiers of a chat's messages in order. */
  function MessageIds(messages: seq<Message>, chat: int): seq<int> {
    KeysOf(MessagesAfter(messages, chat, 0), MESSAGE_ID)
  }

  predicate IsMessageOf(messages: seq<Message>, chat: int, after: int, id: int) {
    1 <= id <= |messages| && id > after && messages[id - 1].chat == chat
  }

  /** The rows are the chat's messages above the id, in order. */
  lemma {:induction false} MessagesMeaning(messages: seq<Message>, chat: int, after: int)
    ensures Ascending(KeysOf(MessagesAfter(messages, chat, after), MESSAGE_ID))
    ensures forall id :: id in KeysOf(MessagesAfter(messages, chat, after), MESSAGE_ID) <==> IsMessageOf(messages, chat, after, id)
  {
    if messages != [] {
      var last := |messages| - 1;
      var front := KeysOf(MessagesAfter(messages[..last], chat, after), MESSAGE_ID);
      var ids := KeysOf(MessagesAfter(messages, chat, after), MESSAGE_ID);
      var added := messages[last].chat == chat && |messages| > after;
      MessagesMeaning(messages[..last], chat, after);
      MessagesStep(messages, chat, after);
      assert forall id :: id in front ==> IsMessageOf(messages[..last], chat, after, id);
      SnocKeys(front, ids, |messages|, added);
      forall id
        ensures id in ids <==> IsMessageOf(messages, chat, after, id)
      {
        LastMessage(messages, chat, after, id);
      }
    }
  }

  lemma LastMessage(messages: seq<Message>, chat: int, after: int, id: int)
    requires messages != []
    ensures IsMessageOf(messages, chat, after, id) <==>
            IsMessageOf(messages[..|messages| - 1], chat, after, id)
            || (messages[|messages| - 1].chat == chat && |messages| > after && id == |messages|)
  {
  }

  /** Each row is a message as it is stored, under its own id. */
  lemma {:induction false} MessagesAreStored(messages: seq<Message>, chat: int, after: int, row: MessageRow)
    requires row in MessagesAfter(messages, chat, after)
    ensures IsMessageOf(messages, chat, after, row.id) && row.message == messages[row.id - 1]
  {
    var last := |messages| - 1;
    if row in MessagesAfter(messages[..last], chat, after) {
      MessagesAreStored(messages[..last], chat, after, row);
    }
  }

  lemma MessagesStep(messages: seq<Message>, chat: int, after: int)
    requires messages != []
    ensures var front := KeysOf(MessagesAfter(messages[..|messages| - 1], chat, after), MESSAGE_ID);
            KeysOf(MessagesAfter(messages, chat, after), MESSAGE_ID)
            == if messages[|messages| - 1].chat == chat && |messages| > after then front + [|messages|] else front
  {
  }

  lemma SnocKeys(front: seq<int>, keys: seq<int>, n: int, added: bool)
    requires Ascending(front) && (forall key :: key in front ==> key < n)
    requires keys == if added then front + [n] else front
    ensures Ascending(keys)
    ensures forall key :: key in keys <==> key in front || (added && key == n)
  {
    assert forall i :: 0 <= i < |front| ==> front[i] in front;
  }

  lemma MessagesAbove(messages: seq<Message>, chat: int, after: int)
    requires |messages| <= MAX_INT64 && after >= 0
    ensures IsKeyList(MessageIds(messages, chat))
    ensures KeysOf(MessagesAfter(messages, chat, after), MESSAGE_ID) == Above(MessageIds(messages, chat), after)
  {
    var keys := MessageIds(messages, chat);
    MessagesMeaning(messages, chat, 0);
    MessagesMeaning(messages, chat, after);
    assert forall i :: 0 <= i < |keys| ==> keys[i] in keys;
    AboveMeaning(keys, after);
    AscendingUnique(KeysOf(MessagesAfter(messages, chat, after), MESSAGE_ID), Above(keys, after));
  }

  lemma KeysOfTake<T>(rows: seq<T>, getId: T -> int, n: nat)
    ensures KeysOf(Take(rows, n), getId) == Take(KeysOf(rows, getId), n)
  {
  }

  /** The page of a chat's messages after a cursor. */
  function MessagePage(messages: seq<Message>, chat: int, after: int, limit: nat): Page<MessageRow>
    requires |messages| <= MAX_INT64 && after >= 0 && limit > 0
  {
    var rows := MessagesAfter(messages, chat, after);
    MessagesAbove(messages, chat, after);
    KeysOfTake(rows, MESSAGE_ID, limit + 1);
    FetchedRowsMakePage(Take(rows, limit + 1), MESSAGE_ID, MessageIds(messages, chat), after, limit);
    PageOf(Take(rows, limit + 1), limit, MESSAGE_ID)
  }

  /** It is the page of the chat's message ids. */
  lemma MessagePageKeys(messages: seq<Message>, chat: int, after: int, limit: nat)
    requires |messages| <= MAX_INT64 && after >= 0 && limit > 0
    ensures IsKeyList(MessageIds(messages, chat))
    ensures IsPageOf(MessagePage(messages, chat, after, limit), MESSAGE_ID, MessageIds(messages, chat), after, limit)
  {
    var rows := MessagesAfter(messages, chat, after);
    MessagesAbove(messages, chat, after);
    KeysOfTake(rows, MESSAGE_ID, limit + 1);
    FetchedRowsMakePage(Take(rows, limit + 1), MESSAGE_ID, MessageIds(messages, chat), after, limit);
  }

  /** Every row is a message of the chat, as it is stored. */
  lemma MessagePageRows(messages: seq<Message>, chat: int, after: int, limit: nat, row: MessageRow)
    requires |messages| <= MAX_INT64 && after >= 0 && limit > 0
    requires row in MessagePage(messages, chat, after, limit).items
    ensures 1 <= row.id <= |messages| && row.message == messages[row.id - 1] && row.message.chat == chat
  {
    assert row in MessagesAfter(messages, chat, after);
    MessagesAreStored(messages, chat, after, row);
  }

  /** Messages of a chat: the checks in order, then the page the cursor asks for. */
  method Messages(repository: ChatRepository, user: int, chat: int, limit: int, cursor: string)
    returns (r: Result<Page<MessageRow>, ChatError>)
    requires |repository.db.messages| <= MAX_INT64
    ensures var page := NormalizeChatPage(limit, cursor);
            r == if chat <= 0 then Failure(InvalidChatId)
                 else if page.Failure? then Failure(InvalidPage)
                 else if !(chat in repository.db.chats && IsParticipant(repository.db.chats[chat], user))
                 then Failure(Store(ChatNotFound))
                 else Success(MessagePage(repository.db.messages, chat, page.value.1, page.value.0))
    ensures chat <= 0 ==> r == Failure(InvalidChatId)
    ensures chat > 0 && (limit < 0 || limit > 50 || ParseCursor(cursor).Failure?) ==> r == Failure(InvalidPage)
    ensures chat > 0 && 0 <= limit <= 50 && ParseCursor(cursor).Success? ==>
              r == if chat in repository.db.chats
                      && (repository.db.chats[chat].user1 == user || repository.db.chats[chat].user2 == user)
                   then Success(MessagePage(repository.db.messages, chat, ParseCursor(cursor).value, if limit == 0 then 20 else limit))
                   else Failure(Store(ChatNotFound))
  {
    if chat <= 0 {
      return Failure(InvalidChatId);
    }
    var page := NormalizeChatPage(limit, cursor);
    if page.Failure? {
      return Failure(InvalidPage);
    }
    var (size, after) := page.value;
    var rows := repository.ListMessages(user, chat, after, size + 1);
    if rows.Failure? {
      return Failure(Store(rows.error));
    }
    ghost var messages := repository.db.messages;
    MessagesAbove(messages, chat, after);
    KeysOfTake(MessagesAfter(messages, chat, after), MESSAGE_ID, size + 1);
    FetchedRowsMakePage(rows.value, MESSAGE_ID, MessageIds(messages, chat), after, size);
    var result := MakePage(rows.value, size, MESSAGE_ID);
    return Success(result);
  }

  /** A client that pages through a chat while others keep writing sees no message twice, and
      every message that was there when it started once. more(n) is what has happened by request n. */
  lemma HistoryIsComplete(start: Tables, chat: int, more: nat -> seq<Op>, limit: nat,
                          answer: (nat, int) --> Page<MessageRow>, pages: seq<Page<MessageRow>>)
    requires Inv(start) && limit > 0 && forall n: nat :: |Run(start, more(n)).messages| <= MAX_INT64
    requires forall n: nat, c: int :: c >= 0 ==>
               answer.requires(n, c) && answer(n, c) == MessagePage(Run(start, more(n)).messages, chat, c, limit)
    requires Browses(pages, answer, 0, 0)
    ensures Ascending(Flatten(PageKeys(pages, MESSAGE_ID)))
    ensures forall id :: id in MessageIds(start.messages, chat) ==> multiset(Flatten(PageKeys(pages, MESSAGE_ID)))[id] == 1
  {
    var table := (n: nat) => MessageIds(Run(start, more(n)).messages, chat);
    forall n: nat
      ensures IsKeyList(table(n))
    {
      MessagesAbove(Run(start, more(n)).messages, chat, 0);
    }
    forall n: nat, c: int | c >= 0
      ensures IsPageOf(answer(n, c), MESSAGE_ID, table(n), c, limit)
    {
      MessagePageKeys(Run(start, more(n)).messages, chat, c, limit);
    }
    BrowsesFollows(pages, answer, MESSAGE_ID, table, 0, 0, limit);
    ClientSeesOnce(pages, MESSAGE_ID, table, 0, 0, limit);
    forall id | id in MessageIds(start.messages, chat)
      ensures id > 0 && AlwaysListed(table, id)
    {
      MessagesMeaning(start.messages, chat, 0);
      forall n: nat
        ensures id in table(n)
      {
        MessageStays(start, chat, more(n), id);
      }
    }
  }

  lemma MessageStays(start: Tables, chat: int, more: seq<Op>, id: int)
    requires Inv(start) && id in MessageIds(start.messages, chat)
    ensures id in MessageIds(Run(start, more).messages, chat)
  {
    var messages := Run(start, more).messages;
    RunExtends(start, more);
    MessagesMeaning(start.messages, chat, 0);
    MessagesMeaning(messages, chat, 0);
    assert messages[id - 1].(isRead := false) == start.messages[id - 1].(isRead := false);
  }

  /** A client reading a whole chat, page after page, while nobody writes: every message, in
      order, as it is stored. */
  method BrowseMessages(repository: ChatRepository, user: int, chat: int, limit: int)
    returns (r: Result<seq<MessageRow>, ChatError>)
    requires |repository.db.messages| <= MAX_INT64
    ensures r.Success? <==>
            && chat > 0 && 0 <= limit <= 50 && chat in repository.db.chats
            && (repository.db.chats[chat].user1 == user || repository.db.chats[chat].user2 == user)
    ensures r.Success? ==>
              && KeysOf(r.value, MESSAGE_ID) == MessageIds(repository.db.messages, chat)
              && forall row :: row in r.value ==>
                   1 <= row.id <= |repository.db.messages| && row.message == repository.db.messages[row.id - 1]
  {
    ghost var messages, size := repository.db.messages, if limit == 0 then 20 else limit;
    ghost var keys := MessageIds(messages, chat);
    MessagesAbove(messages, chat, 0);
    StartOfList(keys);
    var rows, cursor, after := [], "", 0;
    while true
      invariant Collected(rows, MESSAGE_ID, keys, after) && AreStored(rows, messages)
      invariant ParseCursor(cursor) == Success(after) && 0 <= after <= MAX_INT64
      decreases MAX_INT64 - after
    {
      var page := Messages(repository, user, chat, limit, cursor);
      if page.Failure? {
        return Failure(page.error);
      }
      MessagePageKeys(messages, chat, after, size);
      StoredPage(messages, chat, after, size, rows);
      CollectPage(rows, page.value, MESSAGE_ID, keys, after, size);
      rows := rows + page.value.items;
      if page.value.nextCursor == "" {
        return Success(rows);
      }
      cursor := page.value.nextCursor;
      after := ParseCursor(cursor).value;
    }
  }

  ghost predicate AreStored(rows: seq<MessageRow>, messages: seq<Message>) {
    forall row :: row in rows ==> 1 <= row.id <= |messages| && row.message == messages[row.id - 1]
  }

  lemma StoredPage(messages: seq<Message>, chat: int, after: int, limit: nat, rows: seq<MessageRow>)
    requires |messages| <= MAX_INT64 && after >= 0 && limit > 0 && AreStored(rows, messages)
    ensures AreStored(rows + MessagePage(messages, chat, after, limit).items, messages)
  {
    forall row | row in MessagePage(messages, chat, after, limit).items
      ensures 1 <= row.id <= |messages| && row.message == messages[row.id - 1]
    {
      MessagePageRows(messages, chat, after, limit, row);
    }
  }

  // ----- The chat list -----

  /** A row of the list: the chat, and the partner's user id and name. */
  datatype ChatPreview = ChatPreview(id: int, chat: Chat, partnerUserId: int, partnerFullName: string)

  const CHAT_ID := (preview: ChatPreview) => preview.id

  predicate HasProfile(db: Tables, user: int) {
    exists p :: p in db.profiles && db.profiles[p].userId == user
  }

  /** The profile joined by user id; the unique column leaves one answer. */
  function ProfileOf(db: Tables, user: int): (p: Profile)
    requires OneProfilePerUser(db.profiles) && HasProfile(db, user)
    ensures p.userId == user && p in db.profiles.Values
  {
    var id :| id in db.profiles && db.profiles[id].userId == user;
    db.profiles[id]
  }

  /** A chat the user's list shows: active, and the partner has a profile to join with. */
  predicate IsListed(db: Tables, user: int, id: int) {
    && id in db.chats && db.chats[id].isActive && IsParticipant(db.chats[id], user)
    && HasProfile(db, Partner(db.chats[id], user))
  }

  function ListedAfter(db: Tables, user: int, after: int): set<int> {
    set id | id in db.chats && id > after && IsListed(db, user, id)
  }

  /** The user's listed chats by id. */
  function ListedChats(db: Tables, user: int): seq<int> {
    SortedIds(ListedAfter(db, user, 0))
  }

  ghost predicate ChatIdsInRange(db: Tables) {
    forall id :: id in db.chats ==> 1 <= id <= MAX_INT64
  }

  lemma ListedAbove(db: Tables, user: int, after: int)
    requires ChatIdsInRange(db) && after >= 0
    ensures IsKeyList(ListedChats(db, user))
    ensures SortedIds(ListedAfter(db, user, after)) == Above(ListedChats(db, user), after)
  {
    var all, some := ListedAfter(db, user, 0), ListedAfter(db, user, after);
    SortedMembers(all);
    assert some == set id | id in all && id > after;
    SortedAbove(all, some, after);
  }

  function PreviewOf(db: Tables, user: int, id: int): ChatPreview
    requires OneProfilePerUser(db.profiles) && IsListed(db, user, id)
  {
    var partner := Partner(db.chats[id], user);
    ChatPreview(id, db.chats[id], partner, ProfileOf(db, partner).fullName)
  }

  function Previews(db: Tables, user: int, ids: seq<int>): (rows: seq<ChatPreview>)
    requires OneProfilePerUser(db.profiles) && forall id :: id in ids ==> IsListed(db, user, id)
    ensures KeysOf(rows, CHAT_ID) == ids
  {
    seq(|ids|, i requires 0 <= i < |ids| => PreviewOf(db, user, ids[i]))
  }

  lemma ListedExist(db: Tables, user: int, after: int, limit: nat)
    ensures forall id :: id in Take(SortedIds(ListedAfter(db, user, after)), limit) ==> IsListed(db, user, id)
  {
    var all := SortedIds(ListedAfter(db, user, after));
    assert forall id :: id in Take(all, limit) ==> id in all;
  }

  function ActiveChats(db: Tables, user: int, after: int, limit: nat): (rows: seq<ChatPreview>)
    requires OneProfilePerUser(db.profiles)
    ensures KeysOf(rows, CHAT_ID) == Take(SortedIds(ListedAfter(db, user, after)), limit)
  {
    ListedExist(db, user, after, limit);
    Previews(db, user, Take(SortedIds(ListedAfter(db, user, after)), limit))
  }

  /** The row loop of ListActive. */
  method ScanPreviews(db: Tables, user: int, ids: seq<int>) returns (rows: seq<ChatPreview>)
    requires OneProfilePerUser(db.profiles) && forall id :: id in ids ==> IsListed(db, user, id)
    ensures rows == Previews(db, user, ids)
  {
    rows := [];
    for i := 0 to |ids|
      invariant rows == Previews(db, user, ids)[..i]
    {
      rows := rows + [PreviewOf(db, user, ids[i])];
    }
  }

  method ListActive(db: Database, user: int, after: int, limit: nat) returns (rows: seq<ChatPreview>)
    requires OneProfilePerUser(db.profiles)
    ensures rows == ActiveChats(db.State(), user, after, limit)
  {
    ListedExist(db.State(), user, after, limit);
    rows := ScanPreviews(db.State(), user, Take(SortedIds(ListedAfter(db.State(), user, after)), limit));
  }

  /** The page of the user's active chats after a cursor. */
  function ChatPage(db: Tables, user: int, after: int, limit: nat): Page<ChatPreview>
    requires OneProfilePerUser(db.profiles) && ChatIdsInRange(db) && after >= 0 && limit > 0
  {
    ListedAbove(db, user, after);
    FetchedRowsMakePage(ActiveChats(db, user, after, limit + 1), CHAT_ID, ListedChats(db, user), after, limit);
    PageOf(ActiveChats(db, user, after, limit + 1), limit, CHAT_ID)
  }

  /** It is the page of the user's listed chats. */
  lemma ChatPageKeys(db: Tables, user: int, after: int, limit: nat)
    requires OneProfilePerUser(db.profiles) && ChatIdsInRange(db) && after >= 0 && limit > 0
    ensures IsKeyList(ListedChats(db, user))
    ensures IsPageOf(ChatPage(db, user, after, limit), CHAT_ID, ListedChats(db, user), after, limit)
  {
    ListedAbove(db, user, after);
    FetchedRowsMakePage(ActiveChats(db, user, after, limit + 1), CHAT_ID, ListedChats(db, user), after, limit);
  }

  /** Every row is an active chat of the user, with the other side's id and name. */
  lemma ChatPageRows(db: Tables, user: int, after: int, limit: nat, row: ChatPreview)
    requires OneProfilePerUser(db.profiles) && ChatIdsInRange(db) && after >= 0 && limit > 0
    requires row in ChatPage(db, user, after, limit).items
    ensures IsListed(db, user, row.id) && row.chat == db.chats[row.id]
    ensures row.chat.isActive
    ensures (row.chat.user1 == user && row.partnerUserId == row.chat.user2)
            || (row.chat.user2 == user && row.partnerUserId == row.chat.user1)
    ensures exists p :: p in db.profiles && db.profiles[p].userId == row.partnerUserId && db.profiles[p].fullName == row.partnerFullName
  {
    var ids := Take(SortedIds(ListedAfter(db, user, after)), limit + 1);
    var rows := ActiveChats(db, user, after, limit + 1);
    ListedExist(db, user, after, limit + 1);
    assert row in rows;
    var i :| 0 <= i < |rows| && rows[i] == row;
    assert ids[i] in ids;
    assert row == PreviewOf(db, user, ids[i]);
  }

  /** List: the checks, then the page the cursor asks for. */
  method List(db: Database, user: int, limit: int, cursor: string) returns (r: Result<Page<ChatPreview>, ChatError>)
    requires OneProfilePerUser(db.profiles) && ChatIdsInRange(db.State())
    ensures var page := NormalizeChatPage(limit, cursor);
            r == if page.Failure? then Failure(InvalidPage)
                 else Success(ChatPage(db.State(), user, page.value.1, page.value.0))
    ensures limit < 0 || limit > 50 || ParseCursor(cursor).Failure? ==> r == Failure(InvalidPage)
    ensures 0 <= limit <= 50 && ParseCursor(cursor).Success? ==>
              r == Success(ChatPage(db.State(), user, ParseCursor(cursor).value, if limit == 0 then 20 else limit))
  {
    var page := NormalizeChatPage(limit, cursor);
    if page.Failure? {
      return Failure(InvalidPage);
    }
    var (size, after) := page.value;
    var rows := ListActive(db, user, after, size + 1);
    ListedAbove(db.State(), user, after);
    FetchedRowsMakePage(rows, CHAT_ID, ListedChats(db.State(), user), after, size);
    var result := MakePage(rows, size, CHAT_ID);
    return Success(result);
  }

  /** The list behind the pages: the active chats of the user whose other side has a profile. */
  lemma ListedChatsMeaning(db: Tables, user: int, id: int)
    requires ChatIdsInRange(db)
    ensures id in ListedChats(db, user) <==>
            && id in db.chats && db.chats[id].isActive
            && ((db.chats[id].user1 == user && HasProfile(db, db.chats[id].user2))
                || (db.chats[id].user1 != user && db.chats[id].user2 == user && HasProfile(db, db.chats[id].user1)))
  {
    assert id in ListedChats(db, user) <==> id in ListedAfter(db, user, 0);
  }

  /** A client reading its whole chat list, page after page, on tables that stay as they are. */
  method BrowseChats(db: Database, user: int, limit: int) returns (r: Result<seq<ChatPreview>, ChatError>)
    requires OneProfilePerUser(db.profiles) && ChatIdsInRange(db.State())
    ensures r.Success? <==> 0 <= limit <= 50
    ensures r.Success? ==> KeysOf(r.value, CHAT_ID) == ListedChats(db.State(), user)
  {
    ghost var keys, size := ListedChats(db.State(), user), if limit == 0 then 20 else limit;
    ListedAbove(db.State(), user, 0);
    StartOfList(keys);
    var rows, cursor, after := [], "", 0;
    while true
      invariant Collected(rows, CHAT_ID, keys, after)
      invariant ParseCursor(cursor) == Success(after) && 0 <= after <= MAX_INT64
      decreases MAX_INT64 - after
    {
      var page := List(db, user, limit, cursor);
      if page.Failure? {
        return Failure(page.error);
      }
      ChatPageKeys(db.State(), user, after, size);
      CollectPage(rows, page.value, CHAT_ID, keys, after, size);
      rows := rows + page.value.items;
      if page.value.nextCursor == "" {
        return Success(rows);
      }
      cursor := page.value.nextCursor;
      after := ParseCursor(cursor).value;
    }
  }

  /** A client paging through its chats while the tables change sees none twice, and one that is
      listed at every request once. */
  lemma ChatsOnce(world: nat -> Tables, user: int, limit: nat, answer: (nat, int) --> Page<ChatPreview>,
                  pages: seq<Page<ChatPreview>>, id: int)
    requires limit > 0 && forall n: nat :: OneProfilePerUser(world(n).profiles) && ChatIdsInRange(world(n))
    requires forall n: nat, c: int :: c >= 0 ==> answer.requires(n, c) && answer(n, c) == ChatPage(world(n), user, c, limit)
    requires Browses(pages, answer, 0, 0)
    ensures Ascending(Flatten(PageKeys(pages, CHAT_ID)))
    ensures (forall n: nat :: IsListed(world(n), user, id)) ==> multiset(Flatten(PageKeys(pages, CHAT_ID)))[id] == 1
  {
    var table := (n: nat) => ListedChats(world(n), user);
    ChatsFollow(world, user, limit, answer, pages, table);
    ClientSeesOnce(pages, CHAT_ID, table, 0, 0, limit);
    if forall n: nat :: IsListed(world(n), user, id) {
      AlwaysInList(world, user, table, id);
    }
  }

  lemma AlwaysInList(world: nat -> Tables, user: int, table: nat -> seq<int>, id: int)
    requires forall n: nat :: ChatIdsInRange(world(n)) && table(n) == ListedChats(world(n), user)
    requires forall n: nat :: IsListed(world(n), user, id)
    ensures id > 0 && AlwaysListed(table, id)
  {
    assert IsListed(world(0), user, id) && ChatIdsInRange(world(0));
    forall n: nat
      ensures id in table(n)
    {
      assert ChatIdsInRange(world(n)) && IsListed(world(n), user, id);
      assert id in ListedAfter(world(n), user, 0);
    }
  }

  lemma ChatsFollow(world: nat -> Tables, user: int, limit: nat, answer: (nat, int) --> Page<ChatPreview>,
                    pages: seq<Page<ChatPreview>>, table: nat -> seq<int>)
    requires limit > 0 && forall n: nat :: OneProfilePerUser(world(n).profiles) && ChatIdsInRange(world(n))
    requires forall n: nat, c: int :: c >= 0 ==> answer.requires(n, c) && answer(n, c) == ChatPage(world(n), user, c, limit)
    requires forall n: nat :: table(n) == ListedChats(world(n), user)
    requires Browses(pages, answer, 0, 0)
    ensures forall n: nat :: IsKeyList(table(n))
    ensures FollowsCursors(pages, CHAT_ID, table, 0, 0, limit)
  {
    forall n: nat
      ensures IsKeyList(table(n))
    {
      ListedAbove(world(n), user, 0);
    }
    forall n: nat, c: int | c >= 0
      ensures IsPageOf(answer(n, c), CHAT_ID, table(n), c, limit)
    {
      ChatPageKeys(world(n), user, c, limit);
    }
    BrowsesFollows(pages, answer, CHAT_ID, table, 0, 0, limit);
  }

  /** On unchanging tables it gets its whole list, in order, in max(1, ceil(N / limit)) pages. */
  lemma ChatsAll(db: Tables, user: int, limit: nat, answer: (nat, int) --> Page<ChatPreview>, pages: seq<Page<ChatPreview>>)
    requires limit > 0 && OneProfilePerUser(db.profiles) && ChatIdsInRange(db)
    requires forall n: nat, c: int :: c >= 0 ==> answer.requires(n, c) && answer(n, c) == ChatPage(db, user, c, limit)
    requires Browses(pages, answer, 0, 0)
    ensures var all := ListedChats(db, user);
            && Flatten(PageKeys(pages, CHAT_ID)) == all
            && |all| <= |pages| * limit && (|pages| > 1 ==> (|pages| - 1) * limit < |all|)
  {
    var table := (n: nat) => ListedChats(db, user);
    ListedAbove(db, user, 0);
    ChatsFollow((n: nat) => db, user, limit, answer, pages, table);
    ClientSeesAll(pages, CHAT_ID, table, 0, 0, limit, ListedChats(db, user));
  }

  /** No chat of a pair one of whom has banned the other is on a page of either's list. */
  lemma BannedChatIsNotListed(ops: seq<Op>, a: int, b: int, after: int, limit: nat, row: ChatPreview)
    requires IsBanned(Run(EMPTY, ops), a, b) || IsBanned(Run(EMPTY, ops), b, a)
    requires var db := Run(EMPTY, ops);
             OneProfilePerUser(db.profiles) && ChatIdsInRange(db) && after >= 0 && limit > 0
    requires row in ChatPage(Run(EMPTY, ops), a, after, limit).items
    ensures row.partnerUserId != b
  {
    ReachableInv(ops);
    ChatPageRows(Run(EMPTY, ops), a, after, limit, row);
  }
}
