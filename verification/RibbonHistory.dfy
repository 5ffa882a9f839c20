/** The state told from the log: bans, plain dislikes, read flags, and who is hidden from whom. */
module RibbonHistory {
  import opened Common
  import opened Calendar
  import opened Schema
  import opened Feed
  import opened Paging
  import opened RibbonStore
  import opened RibbonRuns

  // ----- Exclusions -----

  /** What an operation of the log did about one directed pair. */
  datatype Mark = Blocked | Unblocked | Disliked | Other

  ghost function MarkAt(ops: seq<Op>, i: nat, a: int, b: int): Mark
    requires i < |ops|
  {
    if ops[i] == Block(a, b) && ReplyAt(EMPTY, ops, i) == Done then Blocked
    else if ops[i] == Unblock(a, b) then Unblocked
    else if ops[i] == Dislike(a, b) && ReplyAt(EMPTY, ops, i) == Done then Disliked
    else Other
  }

  ghost function Log(ops: seq<Op>, a: int, b: int): (log: seq<Mark>)
    ensures |log| == |ops|
  {
    seq(|ops|, i requires 0 <= i < |ops| => MarkAt(ops, i, a, b))
  }

  lemma LogPrefix(ops: seq<Op>, a: int, b: int)
    requires ops != []
    ensures Log(ops[..|ops| - 1], a, b) == Log(ops, a, b)[..|ops| - 1]
  {
    forall i: nat | i < |ops| - 1 ensures MarkAt(ops[..|ops| - 1], i, a, b) == MarkAt(ops, i, a, b) {
      assert ops[..|ops| - 1][..i] == ops[..i];
    }
  }

  /** The last block comes after the last unblock. */
  ghost predicate BlockedLast(log: seq<Mark>) {
    exists i :: 0 <= i < |log| && log[i] == Blocked && forall j :: i < j < |log| ==> log[j] != Unblocked
  }

  /** A dislike was made while no ban stood, and no block has come since. */
  ghost predicate DislikedLast(log: seq<Mark>) {
    exists i :: 0 <= i < |log| && log[i] == Disliked && !BlockedLast(log[..i])
                && forall j :: i < j < |log| ==> log[j] != Blocked
  }

  lemma BlockedLastStep(log: seq<Mark>)
    requires log != []
    ensures var front, last := log[..|log| - 1], log[|log| - 1];
            BlockedLast(log) <==> last == Blocked || (last != Unblocked && BlockedLast(front))
  {
    var front, last := log[..|log| - 1], log[|log| - 1];
    if last != Unblocked && BlockedLast(front) {
      var i :| 0 <= i < |front| && front[i] == Blocked && forall j :: i < j < |front| ==> front[j] != Unblocked;
      assert log[i] == Blocked;
      assert forall j :: i < j < |log| ==> log[j] != Unblocked;
    }
    if BlockedLast(log) && last != Blocked {
      var i :| 0 <= i < |log| && log[i] == Blocked && forall j :: i < j < |log| ==> log[j] != Unblocked;
      assert front[i] == Blocked;
    }
  }

  lemma DislikedLastStep(log: seq<Mark>)
    requires log != []
    ensures var front, last := log[..|log| - 1], log[|log| - 1];
            DislikedLast(log) <==> (last == Disliked && !BlockedLast(front)) || (last != Blocked && DislikedLast(front))
  {
    var front, last := log[..|log| - 1], log[|log| - 1];
    assert forall i :: 0 <= i < |front| ==> front[..i] == log[..i];
    if last != Blocked && DislikedLast(front) {
      var i :| 0 <= i < |front| && front[i] == Disliked && !BlockedLast(front[..i])
               && forall j :: i < j < |front| ==> front[j] != Blocked;
      assert log[i] == Disliked && !BlockedLast(log[..i]);
      assert forall j :: i < j < |log| ==> log[j] != Blocked;
    }
    if DislikedLast(log) {
      var i :| 0 <= i < |log| && log[i] == Disliked && !BlockedLast(log[..i])
               && forall j :: i < j < |log| ==> log[j] != Blocked;
      if i < |front| {
        assert front[i] == Disliked && !BlockedLast(front[..i]);
        assert log[|log| - 1] != Blocked;
      }
    }
    if last == Disliked && !BlockedLast(front) {
      assert log[|log| - 1] == Disliked && !BlockedLast(log[..|log| - 1]);
    }
  }

  /** Over any run, a permanent ban stands exactly when the last block came after the
      last unblock; a plain dislike stands exactly when it was made while no ban stood and
      no block has come since: blocks replace it, unblocks leave it. */
  lemma {:induction false} ExclusionHistory(ops: seq<Op>, a: int, b: int)
    ensures var db := Run(EMPTY, ops);
            && (IsBanned(db, a, b) <==> BlockedLast(Log(ops, a, b)))
            && ((a, b) in db.exclusions && !IsBanned(db, a, b) <==> DislikedLast(Log(ops, a, b)))
  {
    if ops != [] {
      var last := |ops| - 1;
      ExclusionHistory(ops[..last], a, b);
      LogPrefix(ops, a, b);
      BlockedLastStep(Log(ops, a, b));
      DislikedLastStep(Log(ops, a, b));
      assert ReplyAt(EMPTY, ops, last) == Apply(Run(EMPTY, ops[..last]), ops[last]).1;
      ExclusionStep(Run(EMPTY, ops[..last]), ops[last], a, b);
    }
  }

  /** How one operation moves the exclusion of one directed pair. */
  lemma ExclusionStep(db: Tables, op: Op, a: int, b: int)
    ensures var (after, reply) := Apply(db, op);
            var mark := if op == Block(a, b) && reply == Done then Blocked
                        else if op == Unblock(a, b) then Unblocked
                        else if op == Dislike(a, b) && reply == Done then Disliked else Other;
            && (IsBanned(after, a, b) <==> mark == Blocked || (mark != Unblocked && IsBanned(db, a, b)))
            && ((a, b) in after.exclusions && !IsBanned(after, a, b) <==>
                  (mark == Disliked && !IsBanned(db, a, b))
                  || (mark != Blocked && (a, b) in db.exclusions && !IsBanned(db, a, b)))
  {
  }

  // ----- Who is hidden from whom -----

  /** While an exclusion stands either way at every statement of a request, or the viewer
      has liked the other, no profile of the other user is on the page. */
  lemma FeedOmits(search: Search, distance: Distance, world: World, from: nat, to: nat,
                  after: int, limit: nat, items: seq<FeedItem>, other: int)
    requires IsFeedPage(search, distance, world, from, to, after, limit, items)
    requires forall k: nat :: from <= k < to ==>
               ExcludedEitherWay(world(k).tables, search.viewer, other) || (search.viewer, other) in world(k).tables.swipes
    ensures forall item :: item in items ==> item.candidate.profile.userId != other
  {
    forall item | item in items ensures item.candidate.profile.userId != other {
      assert SeenDuring(search, distance, world, from, to, item);
      var k: nat :| from <= k < to && ShownAs(search, distance, world(k), item);
    }
  }

  /** What the history of a pair says of its standing exclusion, in one direction. */
  ghost predicate ExclusionStands(ops: seq<Op>, a: int, b: int) {
    BlockedLast(Log(ops, a, b)) || DislikedLast(Log(ops, a, b))
  }

  lemma ExclusionStandsMeaning(ops: seq<Op>, a: int, b: int)
    ensures ExclusionStands(ops, a, b) <==> (a, b) in Run(EMPTY, ops).exclusions
  {
    ExclusionHistory(ops, a, b);
  }

  /** While the history of either direction leaves an exclusion standing, neither user is on
      any page of the other's incoming likes. */
  lemma IncomingLikesOmit(ops: seq<Op>, a: int, b: int, today: Date, after: int, limit: nat)
    requires ExclusionStands(ops, a, b) || ExclusionStands(ops, b, a)
    requires ProfilesKeyed(Run(EMPTY, ops).profiles) && after >= 0 && limit > 0
    ensures var at := Snapshot(Run(EMPTY, ops), today);
            && (forall c :: c in IncomingPage(at, a, after, limit).items ==> c.profile.userId != b)
            && (forall c :: c in IncomingPage(at, b, after, limit).items ==> c.profile.userId != a)
  {
    var at := Snapshot(Run(EMPTY, ops), today);
    ExclusionStandsMeaning(ops, a, b);
    ExclusionStandsMeaning(ops, b, a);
    forall c | c in IncomingPage(at, a, after, limit).items
      ensures c.profile.userId != b
    {
      IncomingPageRows(at, a, after, limit, c);
    }
    forall c | c in IncomingPage(at, b, after, limit).items
      ensures c.profile.userId != a
    {
      IncomingPageRows(at, b, after, limit, c);
    }
  }

  // ----- Incoming likes from the log -----

  /** Some like of a for b was let through. */
  ghost predicate HasLiked(ops: seq<Op>, a: int, b: int) {
    exists i :: 0 <= i < |ops| && ops[i] == Like(a, b) && ReplyAt(EMPTY, ops, i).Liked?
  }

  lemma HasLikedStep(ops: seq<Op>, op: Op, a: int, b: int)
    ensures HasLiked(ops + [op], a, b) <==> HasLiked(ops, a, b) || (op == Like(a, b) && Apply(Run(EMPTY, ops), op).1.Liked?)
  {
    var all := ops + [op];
    assert all[..|ops|] == ops;
    assert forall i :: 0 <= i < |ops| ==> all[..i] == ops[..i];
    if i :| 0 <= i < |ops| && ops[i] == Like(a, b) && ReplyAt(EMPTY, ops, i).Liked? {
      assert all[i] == Like(a, b) && ReplyAt(EMPTY, all, i).Liked?;
    }
    if op == Like(a, b) && Apply(Run(EMPTY, ops), op).1.Liked? {
      assert all[|ops|] == Like(a, b) && ReplyAt(EMPTY, all, |ops|).Liked?;
    }
  }

  lemma SwipeStep(db: Tables, op: Op, a: int, b: int)
    ensures var (after, reply) := Apply(db, op);
            (a, b) in after.swipes <==> (a, b) in db.swipes || (op == Like(a, b) && reply.Liked?)
    ensures op == Like(a, b) && Apply(db, op).1.Liked? ==> a in Apply(db, op).0.users
  {
  }

  /** A swipe is there exactly when a like of it was let through. */
  lemma {:induction false} SwipeHistory(ops: seq<Op>, a: int, b: int)
    ensures (a, b) in Run(EMPTY, ops).swipes <==> HasLiked(ops, a, b)
    ensures HasLiked(ops, a, b) ==> a in Run(EMPTY, ops).users
  {
    if ops != [] {
      var front, last := ops[..|ops| - 1], ops[|ops| - 1];
      assert ops == front + [last];
      SwipeHistory(front, a, b);
      HasLikedStep(front, last, a, b);
      SwipeStep(Run(EMPTY, front), last, a, b);
      UsersStay(Run(EMPTY, front), last, a);
    }
  }

  lemma UsersStay(db: Tables, op: Op, a: int)
    ensures a in db.users ==> a in Apply(db, op).0.users
  {
  }

  /** Every row of a's incoming likes shows the active profile of someone who has liked a, with no
      exclusion standing either way, as it is stored. */
  lemma IncomingLikesAreLikers(ops: seq<Op>, a: int, today: Date, after: int, limit: nat, c: Candidate)
    requires ProfilesKeyed(Run(EMPTY, ops).profiles) && after >= 0 && limit > 0
    requires c in IncomingPage(Snapshot(Run(EMPTY, ops), today), a, after, limit).items
    ensures var db, liker := Run(EMPTY, ops), c.profile.userId;
            && c.profile.id in db.profiles && c.profile == db.profiles[c.profile.id] && c.profile.isActive
            && liker in db.users && c.isVerified == db.users[liker]
            && HasLiked(ops, liker, a) && !ExclusionStands(ops, liker, a) && !ExclusionStands(ops, a, liker)
  {
    IncomingPageRows(Snapshot(Run(EMPTY, ops), today), a, after, limit, c);
    SwipeHistory(ops, c.profile.userId, a);
    ExclusionStandsMeaning(ops, c.profile.userId, a);
    ExclusionStandsMeaning(ops, a, c.profile.userId);
  }

  /** And each such profile is in the list behind the pages, once. */
  lemma LikersAreIncoming(ops: seq<Op>, a: int, id: int)
    requires ProfilesKeyed(Run(EMPTY, ops).profiles) && id in Run(EMPTY, ops).profiles
    requires var p := Run(EMPTY, ops).profiles[id];
             p.isActive && HasLiked(ops, p.userId, a) && !ExclusionStands(ops, p.userId, a) && !ExclusionStands(ops, a, p.userId)
    ensures multiset(IncomingKeys(Run(EMPTY, ops), a))[id] == 1
  {
    var p := Run(EMPTY, ops).profiles[id];
    SwipeHistory(ops, p.userId, a);
    ExclusionStandsMeaning(ops, p.userId, a);
    ExclusionStandsMeaning(ops, a, p.userId);
    assert id in IncomingSet(Run(EMPTY, ops), a, 0);
    AscendingOnce(IncomingKeys(Run(EMPTY, ops), a), id);
  }

  /** While the history leaves an exclusion standing at every statement of a request, the other
      user is on no page of the feed. */
  lemma FeedHistoryOmits(search: Search, distance: Distance, world: World, history: nat -> seq<Op>, from: nat, to: nat,
                         after: int, limit: nat, items: seq<FeedItem>, other: int)
    requires IsFeedPage(search, distance, world, from, to, after, limit, items)
    requires forall k: nat :: from <= k < to ==>
               && world(k).tables == Run(EMPTY, history(k))
               && (ExclusionStands(history(k), search.viewer, other) || ExclusionStands(history(k), other, search.viewer))
    ensures forall item :: item in items ==> item.candidate.profile.userId != other
  {
    forall k: nat | from <= k < to
      ensures ExcludedEitherWay(world(k).tables, search.viewer, other)
    {
      ExclusionStandsMeaning(history(k), search.viewer, other);
      ExclusionStandsMeaning(history(k), other, search.viewer);
    }
    FeedOmits(search, distance, world, from, to, after, limit, items, other);
  }

  /** Once A's like of B is recorded, B is on no later feed page of A, whatever happens
      in between and between the statements of that page. */
  lemma LikedUserLeavesFeed(ops: seq<Op>, b: int, search: Search, distance: Distance, world: World,
                            more: nat -> seq<Op>, from: nat, to: nat, after: int, limit: nat, items: seq<FeedItem>)
    requires Apply(Run(EMPTY, ops), Like(search.viewer, b)).1.Liked?
    requires forall k: nat :: from <= k < to ==>
               world(k).tables == Run(Apply(Run(EMPTY, ops), Like(search.viewer, b)).0, more(k))
    requires IsFeedPage(search, distance, world, from, to, after, limit, items)
    ensures forall item :: item in items ==> item.candidate.profile.userId != b
  {
    var liked := Apply(Run(EMPTY, ops), Like(search.viewer, b)).0;
    ReachableInv(ops);
    ApplyKeeps(Run(EMPTY, ops), Like(search.viewer, b));
    forall k: nat | from <= k < to ensures (search.viewer, b) in world(k).tables.swipes {
      RunExtends(liked, more(k));
    }
    FeedOmits(search, distance, world, from, to, after, limit, items, b);
  }

  // ----- Read flags -----

  /** A chat of a reachable state joins two different users. */
  lemma ChatJoinsTwo(db: Tables, id: int)
    requires Inv(db) && id in db.chats
    ensures db.chats[id].user1 != db.chats[id].user2
  {
    assert IsChatOf(db, id, db.chats[id].user1, db.chats[id].user2);
    assert HasChat(db, db.chats[id].user1, db.chats[id].user2);
    assert MutualLike(db, db.chats[id].user1, db.chats[id].user2);
  }

  ghost predicate MarkedRead(ops: seq<Op>, user: int, chat: int) {
    exists j :: 0 <= j < |ops| && ops[j] == MarkRead(user, chat)
  }

  lemma MarkedReadStep(ops: seq<Op>, user: int, chat: int)
    requires ops != []
    ensures MarkedRead(ops, user, chat) <==>
            ops[|ops| - 1] == MarkRead(user, chat) || MarkedRead(ops[..|ops| - 1], user, chat)
  {
    if MarkedRead(ops[..|ops| - 1], user, chat) {
      var j :| 0 <= j < |ops| - 1 && ops[..|ops| - 1][j] == MarkRead(user, chat);
      assert ops[j] == MarkRead(user, chat);
    }
    if MarkedRead(ops, user, chat) && ops[|ops| - 1] != MarkRead(user, chat) {
      var j :| 0 <= j < |ops| && ops[j] == MarkRead(user, chat);
      assert ops[..|ops| - 1][j] == MarkRead(user, chat);
    }
  }

  /** A message is read exactly when the other participant marked the chat read after it
      was sent; the sender's own calls and strangers' calls never set the flag. */
  lemma {:induction false} ReadHistory(ops: seq<Op>, user: int, chat: int, body: string, more: seq<Op>)
    requires Apply(Run(EMPTY, ops), Send(user, chat, body)).1 == Done
    ensures var db := Run(EMPTY, ops);
            var later := Run(Apply(db, Send(user, chat, body)).0, more);
            var n := |db.messages|;
            && n < |later.messages|
            && later.messages[n].(isRead := false) == Message(chat, user, body, false)
            && (later.messages[n].isRead <==> MarkedRead(more, Partner(db.chats[chat], user), chat))
  {
    var db := Run(EMPTY, ops);
    var sent := Apply(db, Send(user, chat, body)).0;
    ReachableInv(ops);
    ApplyKeeps(db, Send(user, chat, body));
    RunExtends(sent, more);
    if more != [] {
      var front := more[..|more| - 1];
      ReadHistory(ops, user, chat, body, front);
      RunExtends(sent, front);
      ChatJoinsTwo(db, chat);
      MarkedReadStep(more, Partner(db.chats[chat], user), chat);
      ReadStep(Run(sent, front), more[|more| - 1], |db.messages|, Partner(db.chats[chat], user));
    }
  }

  /** How one operation moves the read flag of message n; partner is its receiver. */
  lemma ReadStep(db: Tables, op: Op, n: nat, partner: int)
    requires n < |db.messages| && db.messages[n].chat in db.chats
    requires var m := db.messages[n];
             && IsParticipant(db.chats[m.chat], m.sender) && m.sender != partner
             && db.chats[m.chat].user1 != db.chats[m.chat].user2 && partner == Partner(db.chats[m.chat], m.sender)
    ensures var after := Apply(db, op).0;
            && n < |after.messages|
            && (after.messages[n].isRead <==>
                  db.messages[n].isRead || op == MarkRead(partner, db.messages[n].chat))
  {
  }
}
