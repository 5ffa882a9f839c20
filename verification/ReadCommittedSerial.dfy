/** Run without interruption, the statements of a transaction do what the serial
    transaction functions say. */
module ReadCommittedSerial {
  import opened Common
  import opened Schema
  import S = RibbonStore
  import opened ReadCommitted

  ghost predicate SameRows(s: State, db: Tables) {
    s.swipes == db.swipes && s.bans == db.exclusions && s.chats == db.chats && s.nextChatId == db.nextChatId
  }

  /** The seven statements of a like, back to back. */
  ghost function FullLike(s: State, t: nat, a: int, b: int): State {
    var checked := Step(Step(s, BeginLike(t, a, b)), CheckExcluded(t));
    var looked := Step(Step(checked, InsertSwipe(t)), CheckMutual(t));
    Step(Step(Step(looked, InsertChat(t)), SelectChat(t)), Commit(t))
  }

  /** The state with nothing but transaction t open. */
  function Only(s: State, t: nat, tx: Tx): State {
    s.(open := map[t := tx])
  }

  lemma ExcludedLike(s: State, t: nat, a: int, b: int)
    requires s.open == map[] && a != b && ((a, b) in s.bans || (b, a) in s.bans)
    ensures FullLike(s, t, a, b) == s
  {
    var begun := Step(s, BeginLike(t, a, b));
    assert Step(begun, CheckExcluded(t)) == s;
  }

  lemma CheckedLike(s: State, t: nat, a: int, b: int)
    requires s.open == map[] && a != b && (a, b) !in s.bans && (b, a) !in s.bans
    ensures var own := (a, b) !in s.swipes;
            Step(Step(Step(s, BeginLike(t, a, b)), CheckExcluded(t)), InsertSwipe(t))
            == Only(s, t, Tx(a, b, Swiped, own, None, None, {}))
  {
    var begun := Step(s, BeginLike(t, a, b));
    assert begun == Only(s, t, Tx(a, b, Begun, false, None, None, {}));
    var checked := Step(begun, CheckExcluded(t));
    assert checked == Only(s, t, Tx(a, b, Checked, false, None, None, {}));
  }

  lemma UnmatchedLike(s: State, t: nat, a: int, b: int, own: bool)
    requires s.open == map[] && a != b && (b, a) !in s.swipes
    ensures var swiped := Only(s, t, Tx(a, b, Swiped, own, None, None, {}));
            var done := Step(Step(Step(Step(swiped, CheckMutual(t)), InsertChat(t)), SelectChat(t)), Commit(t));
            done == s.(swipes := if own then s.swipes + {(a, b)} else s.swipes)
  {
    var swiped := Only(s, t, Tx(a, b, Swiped, own, None, None, {}));
    var looked := Step(swiped, CheckMutual(t));
    assert looked == Only(s, t, Tx(a, b, Unmatched, own, None, None, {}));
    assert Step(Step(looked, InsertChat(t)), SelectChat(t)) == looked;
    assert Step(looked, Commit(t)).open == map[];
  }

  lemma StoredChat(s: State, t: nat, a: int, b: int, own: bool)
    requires s.open == map[] && a != b && (b, a) in s.swipes
    ensures var swiped := Only(s, t, Tx(a, b, Swiped, own, None, None, {}));
            var stored := if HasChat(s, a, b) then None else Some(s.nextChatId);
            Step(Step(swiped, CheckMutual(t)), InsertChat(t))
            == Only(s, t, Tx(a, b, ChatStored, own, stored, None, {})).(nextChatId := s.nextChatId + 1)
  {
    var looked := Step(Only(s, t, Tx(a, b, Swiped, own, None, None, {})), CheckMutual(t));
    assert looked == Only(s, t, Tx(a, b, Matched, own, None, None, {}));
    SameChats(s, looked, a, b);
  }

  lemma SameChats(s: State, other: State, a: int, b: int)
    requires s.chats == other.chats
    ensures HasChat(s, a, b) <==> HasChat(other, a, b)
  {
    assert forall id :: IsChat(s, id, a, b) <==> IsChat(other, id, a, b);
  }

  /** Reading the chat back and committing, when the pair's only chat is id. */
  lemma SeenChat(s: State, t: nat, a: int, b: int, own: bool, stored: Option<int>, id: int)
    requires s.open == map[] && a != b
    requires stored == Some(id) || (stored.None? && IsChat(s, id, a, b) && forall i :: IsChat(s, i, a, b) ==> i == id)
    ensures var before := Only(s, t, Tx(a, b, ChatStored, own, stored, None, {}));
            Step(Step(before, SelectChat(t)), Commit(t))
            == s.(swipes := if own then s.swipes + {(a, b)} else s.swipes,
                  chats := if stored.Some? then s.chats[id := Chat(a, b, true)] else s.chats,
                  replies := s.replies + {(a, b, id)})
  {
    var before := Only(s, t, Tx(a, b, ChatStored, own, stored, None, {}));
    SameChats(s, before, a, b);
    var seen := Step(before, SelectChat(t));
    assert forall i :: IsChat(before, i, a, b) <==> IsChat(s, i, a, b);
    assert seen == Only(s, t, Tx(a, b, ChatSeen, own, stored, Some(id), {}));
    assert Step(seen, Commit(t)).open == map[];
  }

  /** An uninterrupted like leaves the rows, and gives the answer, of the serial like. */
  lemma SerialLikeRefines(s: State, db: Tables, t: nat, a: int, b: int)
    requires Safe(s) && s.open == map[] && SameRows(s, db)
    requires a != b && a in db.users && b in db.users && S.HasActiveProfile(db, b)
    ensures var (after, reply) := S.LikeTx(db, a, b);
            var done := FullLike(s, t, a, b);
            && SameRows(done, after) && done.open == map[]
            && done.replies == (if reply.Success? && reply.value.Some? then s.replies + {(a, b, reply.value.value)}
                                else s.replies)
  {
    if ExcludedEitherWay(db, a, b) {
      ExcludedLike(s, t, a, b);
    } else {
      var own := (a, b) !in s.swipes;
      CheckedLike(s, t, a, b);
      if (b, a) !in s.swipes {
        UnmatchedLike(s, t, a, b, own);
      } else {
        MatchedLike(s, db, t, a, b, own);
      }
    }
  }

  lemma MatchedLike(s: State, db: Tables, t: nat, a: int, b: int, own: bool)
    requires Safe(s) && s.open == map[] && SameRows(s, db)
    requires a != b && a in db.users && b in db.users && S.HasActiveProfile(db, b)
    requires !ExcludedEitherWay(db, a, b) && (b, a) in s.swipes && own == ((a, b) !in s.swipes)
    ensures var (after, reply) := S.LikeTx(db, a, b);
            var swiped := Only(s, t, Tx(a, b, Swiped, own, None, None, {}));
            var done := Step(Step(Step(Step(swiped, CheckMutual(t)), InsertChat(t)), SelectChat(t)), Commit(t));
            && SameRows(done, after) && done.open == map[]
            && reply.Success? && reply.value.Some? && done.replies == s.replies + {(a, b, reply.value.value)}
  {
    var liked := db.(swipes := db.swipes + {(a, b)});
    var stored := if HasChat(s, a, b) then None else Some(s.nextChatId);
    StoredChat(s, t, a, b, own);
    assert HasChat(s, a, b) <==> S.HasChat(liked, a, b) by {
      assert forall i :: IsChat(s, i, a, b) <==> S.IsChatOf(liked, i, a, b);
    }
    S.InsertedChatExists(liked, a, b);
    var id := S.ChatOf(S.InsertChat(liked, a, b), a, b);
    assert S.IsChatOf(S.InsertChat(liked, a, b), id, a, b);
    if HasChat(s, a, b) {
      assert IsChat(s, id, a, b);
    } else {
      assert forall i :: i in s.chats ==> !IsChat(s, i, a, b);
      assert id == s.nextChatId;
    }
    SeenChat(s.(nextChatId := s.nextChatId + 1), t, a, b, own, stored, id);
  }

  /** The three statements of a block, back to back. */
  ghost function FullBlock(s: State, t: nat, a: int, b: int): State {
    Step(Step(Step(Step(s, BeginBlock(t, a, b)), UpsertBan(t)), UpdateChats(t)), Commit(t))
  }

  lemma DeactivatedBlock(s: State, t: nat, a: int, b: int)
    requires s.open == map[] && a != b
    ensures Step(Step(Step(s, BeginBlock(t, a, b)), UpsertBan(t)), UpdateChats(t))
            == Only(s, t, Tx(a, b, Deactivated, false, None, None, ActiveBetween(s, a, b)))
  {
    var begun := Step(s, BeginBlock(t, a, b));
    assert begun == Only(s, t, Tx(a, b, BlockBegun, false, None, None, {}));
    var banned := Step(begun, UpsertBan(t));
    assert banned == Only(s, t, Tx(a, b, BanStored, false, None, None, {}));
  }

  lemma BlockCommitted(s: State, t: nat, a: int, b: int, db: Tables)
    requires s.open == map[] && SameRows(s, db)
    ensures var done := Step(Only(s, t, Tx(a, b, Deactivated, false, None, None, ActiveBetween(s, a, b))), Commit(t));
            && done.bans == s.bans[(a, b) := true] && done.chats == S.DeactivateBetween(db.chats, a, b)
            && done.swipes == s.swipes && done.nextChatId == s.nextChatId && done.open == map[] && done.replies == s.replies
  {
    var done := Step(Only(s, t, Tx(a, b, Deactivated, false, None, None, ActiveBetween(s, a, b))), Commit(t));
    var chats := S.DeactivateBetween(db.chats, a, b);
    assert done.chats.Keys == chats.Keys;
    forall id | id in db.chats
      ensures done.chats[id] == chats[id]
    {
      assert id in ActiveBetween(s, a, b) <==> s.chats[id].isActive && IsBetween(s.chats[id], a, b);
    }
  }

  /** An uninterrupted block leaves the rows of the serial block. */
  lemma SerialBlockRefines(s: State, db: Tables, t: nat, a: int, b: int)
    requires s.open == map[] && SameRows(s, db)
    requires a != b && a in db.users && b in db.users
    ensures var (after, reply) := S.BlockTx(db, a, b);
            var done := FullBlock(s, t, a, b);
            reply == Success(()) && SameRows(done, after) && done.open == map[] && done.replies == s.replies
  {
    DeactivatedBlock(s, t, a, b);
    BlockCommitted(s, t, a, b, db);
  }

  /** So do a dislike and an unblock, which are single statements. */
  lemma SerialExclusionsRefine(s: State, db: Tables, a: int, b: int)
    requires s.open == map[] && SameRows(s, db)
    requires a != b && a in db.users && b in db.users
    ensures SameRows(Step(s, DislikeNow(a, b)), S.DislikeTx(db, a, b).0)
    ensures SameRows(Step(s, UnblockNow(a, b)), S.UnblockTx(db, a, b))
  {
    if (a, b) in db.exclusions {
      assert db.exclusions[(a, b) := S.IsBanned(db, a, b)] == db.exclusions;
    }
  }
}
