/** What every run of serial transactions keeps: matches, chats and blocks. */
module RibbonRuns {
  import opened Common
  import opened Calendar
  import opened Schema
  import opened RibbonStore

  /** AccountsChange stands for any registration or profile edit: users are only
      added, profiles may change freely. */
  datatype Op =
    | Like(actor: int, target: int)
    | Dislike(actor: int, target: int)
    | Block(actor: int, target: int)
    | Unblock(actor: int, target: int)
    | Send(user: int, chat: int, body: string)
    | MarkRead(user: int, chat: int)
    | AccountsChange(users: map<int, bool>, profiles: map<int, Profile>)

  datatype Reply = Liked(chat: Option<int>) | Done | Refused(error: StoreError)

  function ReplyOf<T>(r: Result<T, StoreError>): Reply {
    if r.Success? then Done else Refused(r.error)
  }

  ghost function Apply(db: Tables, op: Op): (Tables, Reply) {
    match op
    case Like(a, b) =>
      var (after, r) := LikeTx(db, a, b);
      (after, if r.Success? then Liked(r.value) else Refused(r.error))
    case Dislike(a, b) => (DislikeTx(db, a, b).0, ReplyOf(DislikeTx(db, a, b).1))
    case Block(a, b) => (BlockTx(db, a, b).0, ReplyOf(BlockTx(db, a, b).1))
    case Unblock(a, b) => (UnblockTx(db, a, b), Done)
    case Send(u, c, body) => (SendTx(db, u, c, body).0, ReplyOf(SendTx(db, u, c, body).1))
    case MarkRead(u, c) => (MarkReadTx(db, u, c).0, ReplyOf(MarkReadTx(db, u, c).1))
    case AccountsChange(users, profiles) =>
      (if db.users.Keys <= users.Keys then db.(users := users, profiles := profiles) else db, Done)
  }

  ghost function Run(db: Tables, ops: seq<Op>): Tables {
    if ops == [] then db else Apply(Run(db, ops[..|ops| - 1]), ops[|ops| - 1]).0
  }

  /** The tables before operation number i of a run. */
  ghost function Before(db: Tables, ops: seq<Op>, i: nat): Tables
    requires i <= |ops|
  {
    Run(db, ops[..i])
  }

  ghost function ReplyAt(db: Tables, ops: seq<Op>, i: nat): Reply
    requires i < |ops|
  {
    Apply(Before(db, ops, i), ops[i]).1
  }

  lemma RunSnoc(db: Tables, ops: seq<Op>, op: Op)
    ensures Run(db, ops + [op]) == Apply(Run(db, ops), op).0
  {
    assert (ops + [op])[..|ops|] == ops;
  }

  lemma {:induction false} RunConcat(db: Tables, first: seq<Op>, second: seq<Op>)
    ensures Run(db, first + second) == Run(Run(db, first), second)
  {
    if second == [] {
      assert first + second == first;
    } else {
      var last := |second| - 1;
      assert (first + second)[..|first| + last] == first + second[..last];
      RunConcat(db, first, second[..last]);
    }
  }

  // ----- Invariants -----

  /** One chat per unordered pair, numbered below the sequence. */
  ghost predicate ChatsKeyed(db: Tables) {
    UniqueChats(db) && 1 <= db.nextChatId && db.nextChatId !in db.chats && forall id :: id in db.chats ==> 1 <= id < db.nextChatId
  }

  ghost predicate MutualLike(db: Tables, a: int, b: int) {
    (a, b) in db.swipes && (b, a) in db.swipes
  }

  /** A pair shares a chat exactly when both have liked each other. */
  ghost predicate ChatIffMutual(db: Tables) {
    forall a, b :: HasChat(db, a, b) <==> MutualLike(db, a, b)
  }

  ghost predicate NoSelfSwipe(db: Tables) {
    forall a :: (a, a) !in db.swipes
  }

  /** A standing permanent ban, either way, leaves no active chat. */
  ghost predicate NoActiveUnderBan(db: Tables) {
    forall id :: id in db.chats && db.chats[id].isActive ==>
      !IsBanned(db, db.chats[id].user1, db.chats[id].user2) && !IsBanned(db, db.chats[id].user2, db.chats[id].user1)
  }

  /** Messages stand in existing chats and come from one of the two participants. */
  ghost predicate SendersParticipate(db: Tables) {
    forall i :: 0 <= i < |db.messages| ==>
      db.messages[i].chat in db.chats && IsParticipant(db.chats[db.messages[i].chat], db.messages[i].sender)
  }

  ghost predicate Inv(db: Tables) {
    ChatsKeyed(db) && ChatIffMutual(db) && NoSelfSwipe(db) && NoActiveUnderBan(db) && SendersParticipate(db)
  }

  lemma EmptyInv()
    ensures Inv(EMPTY)
  {
  }

  lemma SameChatsSamePairs(db: Tables, other: Tables)
    requires forall id :: id in db.chats <==> id in other.chats
    requires forall id :: id in db.chats ==>
               db.chats[id].user1 == other.chats[id].user1 && db.chats[id].user2 == other.chats[id].user2
    ensures forall a, b :: HasChat(db, a, b) <==> HasChat(other, a, b)
  {
    forall a, b ensures HasChat(db, a, b) <==> HasChat(other, a, b) {
      if HasChat(db, a, b) {
        assert IsChatOf(other, ChatOf(db, a, b), a, b);
      }
      if HasChat(other, a, b) {
        assert IsChatOf(db, ChatOf(other, a, b), a, b);
      }
    }
  }

  /** The chat half of a like, on tables that already hold the swipe. */
  lemma InsertChatInv(db: Tables, liked: Tables, a: int, b: int)
    requires Inv(db) && a != b && !ExcludedEitherWay(db, a, b)
    requires liked == db.(swipes := db.swipes + {(a, b)}) && (b, a) in db.swipes
    ensures Inv(InsertChat(liked, a, b))
  {
    var after := InsertChat(liked, a, b);
    InsertedChatExists(liked, a, b);
    forall x, y ensures HasChat(after, x, y) <==> MutualLike(after, x, y) {
      assert HasChat(db, x, y) <==> MutualLike(db, x, y);
      if HasChat(db, x, y) {
        assert IsChatOf(after, ChatOf(db, x, y), x, y);
      } else if HasChat(after, x, y) {
        var id := ChatOf(after, x, y);
        assert !IsChatOf(db, id, x, y);
        assert (x == a && y == b) || (x == b && y == a);
      } else if MutualLike(after, x, y) {
        assert (x == a && y == b) || (x == b && y == a);
        assert IsChatOf(after, ChatOf(after, a, b), x, y);
      }
    }
    InsertChatKeyed(db, liked, a, b);
  }

  lemma InsertChatKeyed(db: Tables, liked: Tables, a: int, b: int)
    requires ChatsKeyed(db) && liked == db.(swipes := db.swipes + {(a, b)})
    ensures ChatsKeyed(InsertChat(liked, a, b))
  {
    var after := InsertChat(liked, a, b);
    if !HasChat(liked, a, b) {
      forall i | i in db.chats
        ensures !IsBetween(db.chats[i], a, b)
      {
        assert !IsChatOf(liked, i, a, b);
      }
    }
  }

  lemma LikeKeeps(db: Tables, a: int, b: int)
    requires Inv(db)
    ensures Inv(LikeTx(db, a, b).0)
  {
    var after, r := LikeTx(db, a, b).0, LikeTx(db, a, b).1;
    var liked := db.(swipes := db.swipes + {(a, b)});
    if r == Success(None) {
      SameChatsSamePairs(db, after);
    } else if r.Success? {
      InsertChatInv(db, liked, a, b);
    }
  }

  lemma BlockKeeps(db: Tables, a: int, b: int)
    requires Inv(db)
    ensures Inv(BlockTx(db, a, b).0)
  {
    var after := BlockTx(db, a, b).0;
    SameChatsSamePairs(db, after);
  }

  /** Steps that leave swipes and chats alone. */
  lemma SameChatsKeep(db: Tables, after: Tables)
    requires Inv(db) && after.swipes == db.swipes && after.chats == db.chats && after.nextChatId == db.nextChatId
    requires forall a, b :: IsBanned(after, a, b) ==> IsBanned(db, a, b)
    requires SendersParticipate(after)
    ensures Inv(after)
  {
    SameChatsSamePairs(db, after);
  }

  lemma ApplyKeeps(db: Tables, op: Op)
    requires Inv(db)
    ensures Inv(Apply(db, op).0)
  {
    match op
    case Like(a, b) => LikeKeeps(db, a, b);
    case Block(a, b) => BlockKeeps(db, a, b);
    case _ => SameChatsKeep(db, Apply(db, op).0);
  }

  /** Match state machine: in every reachable state a pair shares a chat exactly when
      both likes exist, it is their only chat, and no ban stands over an active chat. */
  lemma {:induction false} ReachableInv(ops: seq<Op>)
    ensures Inv(Run(EMPTY, ops))
    ensures var db := Run(EMPTY, ops);
            && (forall a, b :: HasChat(db, a, b) <==> (a, b) in db.swipes && (b, a) in db.swipes)
            && (forall m :: m in db.messages ==>
                  m.chat in db.chats && (db.chats[m.chat].user1 == m.sender || db.chats[m.chat].user2 == m.sender))
  {
    if ops == [] {
      EmptyInv();
    } else {
      ReachableInv(ops[..|ops| - 1]);
      ApplyKeeps(Run(EMPTY, ops[..|ops| - 1]), ops[|ops| - 1]);
    }
  }

  lemma {:induction false} RunKeeps(db: Tables, ops: seq<Op>)
    requires Inv(db)
    ensures Inv(Run(db, ops))
  {
    if ops != [] {
      RunKeeps(db, ops[..|ops| - 1]);
      ApplyKeeps(Run(db, ops[..|ops| - 1]), ops[|ops| - 1]);
    }
  }

  // ----- What later operations cannot undo -----

  /** Rows that stay: swipes, chats with their pairs, inactivity, message senders, read flags. */
  ghost predicate Extends(before: Tables, after: Tables) {
    && before.swipes <= after.swipes
    && before.users.Keys <= after.users.Keys
    && (forall id :: id in before.chats ==>
          && id in after.chats
          && after.chats[id].user1 == before.chats[id].user1 && after.chats[id].user2 == before.chats[id].user2
          && (after.chats[id].isActive ==> before.chats[id].isActive))
    && |before.messages| <= |after.messages|
    && (forall i :: 0 <= i < |before.messages| ==>
          && after.messages[i].(isRead := false) == before.messages[i].(isRead := false)
          && (before.messages[i].isRead ==> after.messages[i].isRead))
    && (forall i :: |before.messages| <= i < |after.messages| ==>
          after.messages[i].chat in before.chats ==> before.chats[after.messages[i].chat].isActive)
  }

  lemma ApplyExtends(db: Tables, op: Op)
    requires ChatsKeyed(db)
    ensures Extends(db, Apply(db, op).0)
  {
  }

  lemma ExtendsTransitive(a: Tables, b: Tables, c: Tables)
    requires Extends(a, b) && Extends(b, c)
    ensures Extends(a, c)
  {
  }

  /** Swipes are never lost, chats never vanish or come back to life, messages stay,
      read flags stay, and nothing is added to an inactive chat. */
  lemma {:induction false} RunExtends(db: Tables, ops: seq<Op>)
    requires Inv(db)
    ensures Extends(db, Run(db, ops))
  {
    if ops != [] {
      var front := ops[..|ops| - 1];
      RunExtends(db, front);
      RunKeeps(db, front);
      ApplyExtends(Run(db, front), ops[|ops| - 1]);
      ExtendsTransitive(db, Run(db, front), Run(db, ops));
    }
  }

  /** A like is answered with a chat exactly when the other side has liked before, and
      then every later like between the two, from either side, names the same chat. */
  lemma RepeatedLikeSameChat(ops: seq<Op>, a: int, b: int, more: seq<Op>)
    requires Apply(Run(EMPTY, ops), Like(a, b)).1.Liked?
    ensures var db := Run(EMPTY, ops);
            var reply := Apply(db, Like(a, b)).1.chat;
            var later := Run(Apply(db, Like(a, b)).0, more);
            && (reply.Some? <==> (b, a) in db.swipes)
            && (reply.Some? ==>
                  && reply.value in later.chats
                  && (Apply(later, Like(a, b)).1 == Liked(reply) || Apply(later, Like(a, b)).1.Refused?)
                  && (Apply(later, Like(b, a)).1 == Liked(reply) || Apply(later, Like(b, a)).1.Refused?))
  {
    var db := Run(EMPTY, ops);
    var next := Apply(db, Like(a, b)).0;
    ReachableInv(ops);
    ApplyKeeps(db, Like(a, b));
    RunKeeps(next, more);
    RunExtends(next, more);
    var later := Run(next, more);
    if (b, a) in db.swipes {
      var id := Apply(db, Like(a, b)).1.chat.value;
      assert IsChatOf(next, id, a, b);
      assert IsChatOf(later, id, a, b) && IsChatOf(later, id, b, a);
      LikeNamesChat(later, a, b, id);
      LikeNamesChat(later, b, a, id);
    }
  }

  lemma LikeNamesChat(db: Tables, a: int, b: int, id: int)
    requires Inv(db) && IsChatOf(db, id, a, b) && IsChatOf(db, id, b, a)
    ensures Apply(db, Like(a, b)).1 == Liked(Some(id)) || Apply(db, Like(a, b)).1.Refused?
  {
    assert HasChat(db, a, b);
    assert MutualLike(db, a, b);
    var liked := db.(swipes := db.swipes + {(a, b)});
    assert liked == db;
    ChatIsUnique(db, a, b, id);
  }

  function ChatMessages(messages: seq<Message>, chat: int): seq<string> {
    if messages == [] then []
    else
      var last := messages[|messages| - 1];
      ChatMessages(messages[..|messages| - 1], chat) + (if last.chat == chat then [last.body] else [])
  }

  lemma {:induction false} SameChatMessages(before: seq<Message>, after: seq<Message>, chat: int)
    requires |before| <= |after|
    requires forall i :: 0 <= i < |before| ==> after[i].chat == before[i].chat && after[i].body == before[i].body
    requires forall i :: |before| <= i < |after| ==> after[i].chat != chat
    ensures ChatMessages(after, chat) == ChatMessages(before, chat)
    decreases |after|
  {
    if |after| > |before| {
      SameChatMessages(before, after[..|after| - 1], chat);
    } else if after != [] {
      SameChatMessages(before[..|before| - 1], after[..|after| - 1], chat);
    }
  }

  /** Block is final: after a block no operation whatever, unblocking and liking again
      included, makes the pair's chat active or adds a message to it. */
  lemma BlockIsFinal(ops: seq<Op>, a: int, b: int, more: seq<Op>, id: int)
    requires Apply(Run(EMPTY, ops), Block(a, b)).1 == Done
    requires IsChatOf(Run(EMPTY, ops), id, a, b)
    ensures var blocked := Apply(Run(EMPTY, ops), Block(a, b)).0;
            var later := Run(blocked, more);
            && IsChatOf(later, id, a, b) && !later.chats[id].isActive
            && ChatMessages(later.messages, id) == ChatMessages(blocked.messages, id)
  {
    ReachableInv(ops);
    var blocked := Apply(Run(EMPTY, ops), Block(a, b)).0;
    ApplyKeeps(Run(EMPTY, ops), Block(a, b));
    RunExtends(blocked, more);
    var later := Run(blocked, more);
    assert !blocked.chats[id].isActive;
    forall i | 0 <= i < |blocked.messages|
      ensures later.messages[i].chat == blocked.messages[i].chat && later.messages[i].body == blocked.messages[i].body
    {
      assert later.messages[i].(isRead := false) == blocked.messages[i].(isRead := false);
    }
    SameChatMessages(blocked.messages, later.messages, id);
  }

  /** "Matched" does not promise a chat that can be written to: the chat named is
      active exactly when it is new or had not been deactivated. */
  lemma MatchedChatIsActive(ops: seq<Op>, a: int, b: int)
    requires Apply(Run(EMPTY, ops), Like(a, b)).1.Liked? && (b, a) in Run(EMPTY, ops).swipes
    ensures var db := Run(EMPTY, ops);
            var (after, reply) := Apply(db, Like(a, b));
            && reply.chat.Some? && IsChatOf(after, reply.chat.value, a, b)
            && (after.chats[reply.chat.value].isActive <==>
                  (HasChat(db, a, b) ==> db.chats[ChatOf(db, a, b)].isActive))
  {
    var db := Run(EMPTY, ops);
    ReachableInv(ops);
    var (after, reply) := Apply(db, Like(a, b));
    var liked := db.(swipes := db.swipes + {(a, b)});
    if HasChat(db, a, b) {
      var id := ChatOf(db, a, b);
      assert IsChatOf(liked, id, a, b);
      assert IsChatOf(InsertChat(liked, a, b), id, a, b);
      ChatIsUnique(liked, a, b, id);
    } else {
      SameChatsSamePairs(db, liked);
      ChatIsUnique(liked, a, b, liked.nextChatId);
    }
  }

  // ----- A match answered with a dead chat -----

  const TWO_USERS: map<int, bool> := map[1 := false, 2 := false]
  const BIRTHDAY := Date(2000, 1, 1)
  const TWO_PROFILES: map<int, Profile> := map[
    1 := Profile(1, 1, true, BIRTHDAY, 1, None, None, None, "A", ""),
    2 := Profile(2, 2, true, BIRTHDAY, 2, None, None, None, "B", "")]

  function Registered(swipes: set<Pair>, exclusions: map<Pair, bool>, chats: map<int, Chat>, nextChatId: int): Tables {
    Tables(TWO_USERS, TWO_PROFILES, swipes, exclusions, chats, nextChatId, [])
  }

  const MUTUAL: set<Pair> := {(1, 2), (2, 1)}

  const BLOCKED_MATCH := [AccountsChange(TWO_USERS, TWO_PROFILES), Like(1, 2), Like(2, 1), Block(1, 2), Unblock(1, 2)]

  lemma BothActive(db: Tables)
    requires db.profiles == TWO_PROFILES
    ensures HasActiveProfile(db, 1) && HasActiveProfile(db, 2)
  {
    assert db.profiles[1].userId == 1 && db.profiles[2].userId == 2;
  }

  lemma MatchIsMade()
    ensures Apply(EMPTY, BLOCKED_MATCH[0]).0 == Registered({}, map[], map[], 1)
    ensures Apply(Registered({}, map[], map[], 1), Like(1, 2)).0 == Registered({(1, 2)}, map[], map[], 1)
    ensures Apply(Registered({(1, 2)}, map[], map[], 1), Like(2, 1)).0
            == Registered(MUTUAL, map[], map[1 := Chat(2, 1, true)], 2)
  {
    BothActive(Registered({}, map[], map[], 1));
    BothActive(Registered({(1, 2)}, map[], map[], 1));
    var liked := Registered(MUTUAL, map[], map[], 1);
    assert liked == Registered({(1, 2)}, map[], map[], 1).(swipes := {(1, 2)} + {(2, 1)});
    assert !HasChat(liked, 2, 1);
  }

  lemma MatchIsBlocked()
    ensures var matched := Registered(MUTUAL, map[], map[1 := Chat(2, 1, true)], 2);
            var blocked := Registered(MUTUAL, map[(1, 2) := true], map[1 := Chat(2, 1, false)], 2);
            && Apply(matched, Block(1, 2)).0 == blocked
            && Apply(blocked, Unblock(1, 2)).0 == Registered(MUTUAL, map[], map[1 := Chat(2, 1, false)], 2)
  {
    var blocked := Registered(MUTUAL, map[(1, 2) := true], map[1 := Chat(2, 1, false)], 2);
    assert DeactivateBetween(map[1 := Chat(2, 1, true)], 1, 2) == map[1 := Chat(2, 1, false)];
    assert blocked.exclusions - {(1, 2)} == map[];
  }

  /** Users 1 and 2 match, 1 blocks and unblocks 2 and likes again: the answer is a match,
      and the chat it names is inactive. */
  lemma RematchNamesInactiveChat()
    ensures var db := Run(EMPTY, BLOCKED_MATCH);
            && Apply(db, Like(1, 2)).1 == Liked(Some(1))
            && 1 in Apply(db, Like(1, 2)).0.chats && !Apply(db, Like(1, 2)).0.chats[1].isActive
  {
    MatchIsMade();
    MatchIsBlocked();
    FiveOps(EMPTY, BLOCKED_MATCH);
    ReachableInv(BLOCKED_MATCH);
    var db := Registered(MUTUAL, map[], map[1 := Chat(2, 1, false)], 2);
    assert Run(EMPTY, BLOCKED_MATCH) == db;
    BothActive(db);
    assert IsChatOf(db, 1, 1, 2);
    assert db.(swipes := db.swipes + {(1, 2)}) == db;
    assert IsChatOf(InsertChat(db, 1, 2), 1, 1, 2);
    ChatIsUnique(db, 1, 2, 1);
  }

  lemma FiveOps(db: Tables, ops: seq<Op>)
    requires |ops| == 5
    ensures Run(db, ops)
            == Apply(Apply(Apply(Apply(Apply(db, ops[0]).0, ops[1]).0, ops[2]).0, ops[3]).0, ops[4]).0
  {
    assert Run(db, ops[..0]) == db;
    assert forall k :: 0 < k <= 5 ==> ops[..k][..k - 1] == ops[..k - 1];
    assert ops[..5] == ops;
    assert Run(db, ops[..1]) == Apply(db, ops[0]).0;
    assert Run(db, ops[..2]) == Apply(Run(db, ops[..1]), ops[1]).0;
    assert Run(db, ops[..3]) == Apply(Run(db, ops[..2]), ops[2]).0;
    assert Run(db, ops[..4]) == Apply(Run(db, ops[..3]), ops[3]).0;
  }
}
