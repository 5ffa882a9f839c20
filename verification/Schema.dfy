/** The Postgres tables the feed, swipe and chat code works on. */
module Schema {
  import opened Common
  import opened Calendar

  /** (actor, target) of a directed swipe or exclusion. */
  type Pair = (int, int)

  datatype Profile = Profile(
    id: int, userId: int, isActive: bool, birthday: Date, gender: int,
    latitude: Option<real>, longitude: Option<real>, city: Option<string>, fullName: string, bio: string)

  datatype Chat = Chat(user1: int, user2: int, isActive: bool)

  datatype Message = Message(chat: int, sender: int, body: string, isRead: bool)

  /** users maps an id to is_verified, exclusions maps a directed pair to
      is_permanent_ban, nextChatId is the sequence behind chats.id, and messages
      stand in id order. */
  datatype Tables = Tables(
    users: map<int, bool>,
    profiles: map<int, Profile>,
    swipes: set<Pair>,
    exclusions: map<Pair, bool>,
    chats: map<int, Chat>,
    nextChatId: int,
    messages: seq<Message>)

  const EMPTY := Tables(map[], map[], {}, map[], map[], 1, [])

  /** What one statement sees: the tables, and CURRENT_DATE. */
  datatype Snapshot = Snapshot(tables: Tables, today: Date)

  /** Primary key and range of profiles.id. */
  ghost predicate ProfilesKeyed(profiles: map<int, Profile>) {
    forall id :: id in profiles ==> profiles[id].id == id && 1 <= id <= MAX_INT64
  }

  /** profiles.user_id is unique. */
  ghost predicate OneProfilePerUser(profiles: map<int, Profile>) {
    forall i, j :: i in profiles && j in profiles && profiles[i].userId == profiles[j].userId ==> i == j
  }

  predicate ExcludedEitherWay(db: Tables, a: int, b: int) {
    (a, b) in db.exclusions || (b, a) in db.exclusions
  }

  /** Both orders name the same unordered pair (chats_unique_pair_uq). */
  predicate IsBetween(chat: Chat, a: int, b: int) {
    (chat.user1 == a && chat.user2 == b) || (chat.user1 == b && chat.user2 == a)
  }

  predicate IsParticipant(chat: Chat, user: int) {
    chat.user1 == user || chat.user2 == user
  }

  /** The other side of a chat, seen from a participant. */
  function Partner(chat: Chat, user: int): int {
    if chat.user1 == user then chat.user2 else chat.user1
  }
}
