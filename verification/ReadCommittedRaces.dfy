/** Interleavings that break the laws serial transactions keep. ReadCommittedHistory says exactly
    when they break, ReadCommittedSerializable what a caller can enforce. */
module ReadCommittedRaces {
  import opened Common
  import opened Schema
  import opened ReadCommitted

  /** A list of states that follows the actions ends where the run goes on to. */
  lemma {:induction false} FollowOn(before: seq<Action>, actions: seq<Action>, states: seq<State>)
    requires |states| == |actions| + 1 && states[0] == Run(before)
    requires forall i :: 0 <= i < |actions| ==> states[i + 1] == Step(states[i], actions[i])
    ensures Run(before + actions) == states[|actions|]
  {
    if actions == [] {
      assert before + actions == before;
    } else {
      FollowOn(before, actions[..|actions| - 1], states[..|actions|]);
      assert (before + actions)[..|before + actions| - 1] == before + actions[..|actions| - 1];
    }
  }

  function OpenLike(actor: int, target: int, stage: Stage, ownSwipe: bool): Tx {
    Tx(actor, target, stage, ownSwipe, None, None, {})
  }

  function TwoOpen(first: Tx, second: Tx): map<nat, Tx> {
    map[1 := first, 2 := second]
  }

  const TWO_LIKES := [
    BeginLike(1, 1, 2), BeginLike(2, 2, 1), CheckExcluded(1), CheckExcluded(2), InsertSwipe(1), InsertSwipe(2),
    CheckMutual(1), CheckMutual(2), Commit(1), Commit(2)]

  const T1 := START.(open := map[1 := OpenLike(1, 2, Begun, false)])
  const T2 := START.(open := TwoOpen(OpenLike(1, 2, Begun, false), OpenLike(2, 1, Begun, false)))
  const T3 := START.(open := TwoOpen(OpenLike(1, 2, Checked, false), OpenLike(2, 1, Begun, false)))
  const T4 := START.(open := TwoOpen(OpenLike(1, 2, Checked, false), OpenLike(2, 1, Checked, false)))
  const T5 := START.(open := TwoOpen(OpenLike(1, 2, Swiped, true), OpenLike(2, 1, Checked, false)))
  const T6 := START.(open := TwoOpen(OpenLike(1, 2, Swiped, true), OpenLike(2, 1, Swiped, true)))
  const T7 := START.(open := TwoOpen(OpenLike(1, 2, Unmatched, true), OpenLike(2, 1, Swiped, true)))
  const T8 := START.(open := TwoOpen(OpenLike(1, 2, Unmatched, true), OpenLike(2, 1, Unmatched, true)))
  const T9 := START.(open := map[2 := OpenLike(2, 1, Unmatched, true)], swipes := {(1, 2)})
  const T10 := START.(swipes := {(1, 2), (2, 1)})

  lemma TwoLikesCheck()
    ensures Step(START, BeginLike(1, 1, 2)) == T1 && Step(T1, BeginLike(2, 2, 1)) == T2
    ensures Step(T2, CheckExcluded(1)) == T3 && Step(T3, CheckExcluded(2)) == T4
  {
  }

  lemma TwoLikesSwipe()
    ensures Step(T4, InsertSwipe(1)) == T5 && Step(T5, InsertSwipe(2)) == T6
  {
  }

  lemma TwoLikesLook()
    ensures Step(T6, CheckMutual(1)) == T7 && Step(T7, CheckMutual(2)) == T8
  {
  }

  lemma TwoLikesCommit()
    ensures Step(T8, Commit(1)) == T9 && Step(T9, Commit(2)) == T10
  {
  }

  /** Users 1 and 2 like each other at the same moment: both likes are committed, no chat is. */
  lemma SimultaneousLikesMissTheMatch()
    ensures var s := Run(TWO_LIKES);
            (1, 2) in s.swipes && (2, 1) in s.swipes && !HasChat(s, 1, 2)
  {
    TwoLikesCheck();
    TwoLikesSwipe();
    TwoLikesLook();
    TwoLikesCommit();
    FollowOn([], TWO_LIKES, [START, T1, T2, T3, T4, T5, T6, T7, T8, T9, T10]);
    assert [] + TWO_LIKES == TWO_LIKES;
  }

  const LIKED := [BeginLike(1, 2, 1), CheckExcluded(1), InsertSwipe(1), CheckMutual(1), Commit(1)]

  const CHECKED_THEN_BLOCKED := [
    BeginLike(2, 1, 2), CheckExcluded(2), BeginBlock(3, 2, 1), UpsertBan(3), UpdateChats(3), Commit(3)]

  const LIKED_BACK := [InsertSwipe(2), CheckMutual(2), InsertChat(2), SelectChat(2), Commit(2)]

  function OneLike(stage: Stage, ownSwipe: bool): State {
    START.(open := map[1 := OpenLike(2, 1, stage, ownSwipe)])
  }

  function Blocking(stage: Stage): State {
    START.(swipes := {(2, 1)},
           open := map[2 := OpenLike(1, 2, Checked, false), 3 := OpenLike(2, 1, stage, false)])
  }

  function Blocked(tx: Tx, nextChatId: int): State {
    START.(swipes := {(2, 1)}, bans := map[(2, 1) := true], open := map[2 := tx], nextChatId := nextChatId)
  }

  const R5 := START.(swipes := {(2, 1)})
  const R6 := R5.(open := map[2 := OpenLike(1, 2, Begun, false)])
  const R7 := R5.(open := map[2 := OpenLike(1, 2, Checked, false)])
  const STORED := Tx(1, 2, ChatStored, true, Some(1), None, {})
  const SEEN := Tx(1, 2, ChatSeen, true, Some(1), Some(1), {})
  const R16 := State({(2, 1), (1, 2)}, map[(2, 1) := true], map[1 := Chat(1, 2, true)], 2,
                     map[], {(1, 2, 1)})

  lemma FirstLikeLooks()
    ensures Step(START, BeginLike(1, 2, 1)) == OneLike(Begun, false)
    ensures Step(OneLike(Begun, false), CheckExcluded(1)) == OneLike(Checked, false)
    ensures Step(OneLike(Checked, false), InsertSwipe(1)) == OneLike(Swiped, true)
  {
  }

  lemma FirstLikeCommits()
    ensures Step(OneLike(Swiped, true), CheckMutual(1)) == OneLike(Unmatched, true)
    ensures Step(OneLike(Unmatched, true), Commit(1)) == R5
  {
  }

  lemma FirstLike()
    ensures Run(LIKED) == R5
  {
    FirstLikeLooks();
    FirstLikeCommits();
    FollowOn([], LIKED, [START, OneLike(Begun, false), OneLike(Checked, false), OneLike(Swiped, true),
                         OneLike(Unmatched, true), R5]);
    assert [] + LIKED == LIKED;
  }

  lemma BlockInBetween()
    ensures Step(R5, BeginLike(2, 1, 2)) == R6 && Step(R6, CheckExcluded(2)) == R7
    ensures Step(R7, BeginBlock(3, 2, 1)) == Blocking(BlockBegun)
    ensures Step(Blocking(BlockBegun), UpsertBan(3)) == Blocking(BanStored)
  {
  }

  lemma BlockCommits()
    ensures Step(Blocking(BanStored), UpdateChats(3)) == Blocking(Deactivated)
    ensures Step(Blocking(Deactivated), Commit(3)) == Blocked(OpenLike(1, 2, Checked, false), 1)
  {
    assert ActiveBetween(Blocking(BanStored), 2, 1) == {};
  }

  lemma LikeGoesOn()
    ensures Step(Blocked(OpenLike(1, 2, Checked, false), 1), InsertSwipe(2)) == Blocked(OpenLike(1, 2, Swiped, true), 1)
    ensures Step(Blocked(OpenLike(1, 2, Swiped, true), 1), CheckMutual(2)) == Blocked(OpenLike(1, 2, Matched, true), 1)
    ensures Step(Blocked(OpenLike(1, 2, Matched, true), 1), InsertChat(2)) == Blocked(STORED, 2)
  {
  }

  lemma LikeCommits()
    ensures Step(Blocked(STORED, 2), SelectChat(2)) == Blocked(SEEN, 2)
    ensures Step(Blocked(SEEN, 2), Commit(2)) == R16
  {
  }

  lemma BlockedInBetween()
    ensures Run(LIKED + CHECKED_THEN_BLOCKED) == Blocked(OpenLike(1, 2, Checked, false), 1)
  {
    FirstLike();
    BlockInBetween();
    BlockCommits();
    FollowOn(LIKED, CHECKED_THEN_BLOCKED, [
      R5, R6, R7, Blocking(BlockBegun), Blocking(BanStored), Blocking(Deactivated),
      Blocked(OpenLike(1, 2, Checked, false), 1)]);
  }

  /** A block that commits between a like's exclusion check and its commit leaves the
      blocked pair with an active chat. */
  lemma LikeAroundBlockLeavesActiveChat()
    ensures var s := Run(LIKED + CHECKED_THEN_BLOCKED + LIKED_BACK);
            1 in s.chats && s.chats[1].isActive && BannedEitherWay(s, s.chats[1].user1, s.chats[1].user2)
  {
    BlockedInBetween();
    LikeGoesOn();
    LikeCommits();
    FollowOn(LIKED + CHECKED_THEN_BLOCKED, LIKED_BACK, [
      Blocked(OpenLike(1, 2, Checked, false), 1), Blocked(OpenLike(1, 2, Swiped, true), 1),
      Blocked(OpenLike(1, 2, Matched, true), 1), Blocked(STORED, 2), Blocked(SEEN, 2), R16]);
  }
}
