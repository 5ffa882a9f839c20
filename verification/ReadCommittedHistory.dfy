/** What interleaved transactions leave behind, told exactly from the history of their
    statements: which likes make a chat, and which blocks reach it. */
module ReadCommittedHistory {
  import opened Common
  import opened ReadCommitted

  // ----- Statements and commits of a history -----

  predicate TakesMutualCheck(s: State, action: Action, t: nat) {
    action == CheckMutual(t) && t in s.open && s.open[t].stage == Swiped
  }

  /** Whether the reverse swipe was committed when t last ran its mutual check. */
  ghost function SawPartner(actions: seq<Action>, t: nat): Option<bool> {
    if actions == [] then None
    else
      var front, last := actions[..|actions| - 1], actions[|actions| - 1];
      var s := Run(front);
      if TakesMutualCheck(s, last, t) then Some((s.open[t].target, s.open[t].actor) in s.swipes)
      else SawPartner(front, t)
  }

  predicate CommitsLike(s: State, action: Action, a: int, b: int) {
    action.Commit? && action.t in s.open && s.open[action.t].stage in {Unmatched, ChatSeen}
    && s.open[action.t].actor == a && s.open[action.t].target == b
  }

  predicate TakesUpdate(s: State, action: Action, t: nat) {
    action == UpdateChats(t) && t in s.open && s.open[t].stage == BanStored
    && !RowsLocked(s, ActiveBetween(s, s.open[t].actor, s.open[t].target))
  }

  /** The chats that were committed when t last ran UPDATE chats. */
  ghost function ChatsAtUpdate(actions: seq<Action>, t: nat): set<int> {
    if actions == [] then {}
    else
      var front, last := actions[..|actions| - 1], actions[|actions| - 1];
      if TakesUpdate(Run(front), last, t) then Run(front).chats.Keys else ChatsAtUpdate(front, t)
  }

  predicate CommitsBlock(s: State, action: Action, a: int, b: int) {
    action.Commit? && action.t in s.open && s.open[action.t].stage == Deactivated && OnPair(s.open[action.t], a, b)
  }

  /** The committed likes: actor, target, and whether the like's mutual check saw the
      reverse swipe committed. */
  ghost function LikesCommitted(actions: seq<Action>): set<(int, int, bool)> {
    if actions == [] then {}
    else
      var front, last := actions[..|actions| - 1], actions[|actions| - 1];
      var s, before := Run(front), LikesCommitted(front);
      if last.Commit? && last.t in s.open && CommitsLike(s, last, s.open[last.t].actor, s.open[last.t].target)
         && SawPartner(front, last.t).Some?
      then before + {(s.open[last.t].actor, s.open[last.t].target, SawPartner(front, last.t).value)} else before
  }

  /** The chats that a committed block between a and b found committed when it ran its update. */
  ghost function ReachedByBlocks(actions: seq<Action>, a: int, b: int): set<int> {
    if actions == [] then {}
    else
      var front, last := actions[..|actions| - 1], actions[|actions| - 1];
      var before := ReachedByBlocks(front, a, b);
      if CommitsBlock(Run(front), last, a, b) then before + ChatsAtUpdate(front, last.t) else before
  }

  // ----- Likes and chats -----

  /** The stage of an open like tells what its mutual check saw. */
  ghost predicate StagesTell(actions: seq<Action>) {
    var s := Run(actions);
    forall t :: t in s.open ==>
      && (s.open[t].stage == Unmatched ==> SawPartner(actions, t) == Some(false))
      && (s.open[t].stage in {Matched, ChatStored, ChatSeen} ==> SawPartner(actions, t) == Some(true))
  }

  /** After a statement a like stands behind its check only if it stood there before, or has just run it. */
  lemma StageStep(s: State, action: Action, t: nat)
    requires t in Step(s, action).open && Step(s, action).open[t].stage in {Unmatched, Matched, ChatStored, ChatSeen}
    requires !TakesMutualCheck(s, action, t)
    ensures t in s.open
    ensures Step(s, action).open[t].stage == Unmatched ==> s.open[t].stage == Unmatched
    ensures Step(s, action).open[t].stage in {Matched, ChatStored, ChatSeen} ==> s.open[t].stage in {Matched, ChatStored, ChatSeen}
  {
  }

  lemma {:induction false} StagesTellTruth(actions: seq<Action>)
    ensures StagesTell(actions)
  {
    if actions != [] {
      var front, last := actions[..|actions| - 1], actions[|actions| - 1];
      var s, next := Run(front), Run(actions);
      StagesTellTruth(front);
      forall t | t in next.open
        ensures next.open[t].stage == Unmatched ==> SawPartner(actions, t) == Some(false)
        ensures next.open[t].stage in {Matched, ChatStored, ChatSeen} ==> SawPartner(actions, t) == Some(true)
      {
        if !TakesMutualCheck(s, last, t) && next.open[t].stage in {Unmatched, Matched, ChatStored, ChatSeen} {
          StageStep(s, last, t);
        }
      }
    }
  }

  /** What a commit of a like adds, and that nothing else adds swipes or chats. */
  lemma SwipesAndChatsStep(s: State, action: Action, a: int, b: int)
    requires Safe(s)
    ensures var next := Step(s, action);
            && ((a, b) in next.swipes <==> (a, b) in s.swipes || CommitsLike(s, action, a, b))
            && (HasChat(next, a, b) <==> HasChat(s, a, b) || CommitsMatch(s, action, a, b) || CommitsMatch(s, action, b, a))
  {
    if action.Commit? && action.t in s.open && s.open[action.t].stage in {Unmatched, ChatSeen} {
      CommitAdds(s, action.t, a, b);
    } else {
      SameSwipesAndPairs(s, action);
      SamePairs(s, Step(s, action), a, b);
    }
  }

  predicate CommitsMatch(s: State, action: Action, a: int, b: int) {
    CommitsLike(s, action, a, b) && s.open[action.t].stage == ChatSeen
  }

  lemma CommitAdds(s: State, t: nat, a: int, b: int)
    requires Safe(s) && t in s.open && s.open[t].stage in {Unmatched, ChatSeen}
    ensures var tx, next := s.open[t], CommitLike(s, t);
            && ((a, b) in next.swipes <==> (a, b) in s.swipes || (tx.actor == a && tx.target == b))
            && (HasChat(next, a, b) <==> HasChat(s, a, b) || (tx.stage == ChatSeen && OnPair(tx, a, b)))
  {
    var tx, next := s.open[t], CommitLike(s, t);
    assert TxHolds(s, tx);
    if HasChat(s, a, b) {
      var id :| id in s.chats && IsChat(s, id, a, b);
      assert IsChat(next, id, a, b);
    } else if tx.stage == ChatSeen && OnPair(tx, a, b) {
      assert tx.ownChat.Some? by {
        if HasChat(s, tx.actor, tx.target) {
          var id :| id in s.chats && IsChat(s, id, tx.actor, tx.target);
          assert IsChat(s, id, a, b);
        }
      }
      assert IsChat(next, tx.ownChat.value, a, b);
    } else {
      assert forall id :: id in next.chats && IsChat(next, id, a, b) ==> id in s.chats && IsChat(s, id, a, b);
    }
  }

  lemma SameSwipesAndPairs(s: State, action: Action)
    requires Safe(s) && !(action.Commit? && action.t in s.open && s.open[action.t].stage in {Unmatched, ChatSeen})
    ensures var next := Step(s, action);
            && next.swipes == s.swipes && next.chats.Keys == s.chats.Keys
            && forall id :: id in s.chats ==> next.chats[id].user1 == s.chats[id].user1 && next.chats[id].user2 == s.chats[id].user2
  {
  }

  lemma SamePairs(s: State, next: State, a: int, b: int)
    requires next.chats.Keys == s.chats.Keys
    requires forall id :: id in s.chats ==> next.chats[id].user1 == s.chats[id].user1 && next.chats[id].user2 == s.chats[id].user2
    ensures HasChat(next, a, b) <==> HasChat(s, a, b)
  {
    if HasChat(s, a, b) {
      var id :| id in s.chats && IsChat(s, id, a, b);
      assert IsChat(next, id, a, b);
    }
    if HasChat(next, a, b) {
      var id :| id in next.chats && IsChat(next, id, a, b);
      assert IsChat(s, id, a, b);
    }
  }

  ghost predicate LikeSaw(actions: seq<Action>, a: int, b: int, saw: bool) {
    (a, b, saw) in LikesCommitted(actions)
  }

  lemma LikeSawStep(actions: seq<Action>, action: Action, a: int, b: int, saw: bool)
    ensures LikeSaw(actions + [action], a, b, saw) <==>
            LikeSaw(actions, a, b, saw) || (CommitsLike(Run(actions), action, a, b) && SawPartner(actions, action.t) == Some(saw))
  {
    assert (actions + [action])[..|actions|] == actions;
  }

  /** Exactly which committed likes make a chat: a swipe is there when a like of it has been
      committed, and a chat when one of the pair's committed likes ran its mutual check with
      the reverse swipe committed. */
  lemma {:induction false} ChatIffCheckSawPartner(actions: seq<Action>, a: int, b: int)
    ensures var s := Run(actions);
            && ((a, b) in s.swipes <==> LikeSaw(actions, a, b, true) || LikeSaw(actions, a, b, false))
            && (HasChat(s, a, b) <==> LikeSaw(actions, a, b, true) || LikeSaw(actions, b, a, true))
  {
    if actions != [] {
      var front, last := actions[..|actions| - 1], actions[|actions| - 1];
      assert actions == front + [last];
      ChatIffCheckSawPartner(front, a, b);
      ReachableSafe(front);
      StagesTellTruth(front);
      SwipesAndChatsStep(Run(front), last, a, b);
      LikeSawStep(front, last, a, b, true);
      LikeSawStep(front, last, a, b, false);
      LikeSawStep(front, last, b, a, true);
    }
  }

  /** So two committed likes lack a chat exactly when every committed like of the pair ran
      its mutual check while the reverse swipe was not committed. */
  lemma MatchMissedIffNeitherSaw(actions: seq<Action>, a: int, b: int)
    requires (a, b) in Run(actions).swipes && (b, a) in Run(actions).swipes
    ensures !HasChat(Run(actions), a, b) <==>
            forall saw :: LikeSaw(actions, a, b, saw) || LikeSaw(actions, b, a, saw) ==> !saw
  {
    ChatIffCheckSawPartner(actions, a, b);
  }

  // ----- Blocks and inactive chats -----

  /** An open block has marked exactly the pair's chats it found active; those it found
      inactive still are. */
  ghost predicate MarksTell(s: State, tx: Tx, found: set<int>) {
    && tx.dead <= found
    && forall id :: id in found && id in s.chats && IsChat(s, id, tx.actor, tx.target) && s.chats[id].isActive ==> id in tx.dead
  }

  ghost predicate UpdatesTell(actions: seq<Action>) {
    var s := Run(actions);
    forall t :: t in s.open && s.open[t].stage == Deactivated ==> MarksTell(s, s.open[t], ChatsAtUpdate(actions, t))
  }

  lemma UpdateMarks(s: State, t: nat)
    requires TakesUpdate(s, UpdateChats(t), t)
    ensures var next := StepUpdateChats(s, t); MarksTell(next, next.open[t], s.chats.Keys)
  {
  }

  /** An open block that does not run its update now keeps its marks, and chats stay inactive. */
  lemma MarksStay(s: State, action: Action, t: nat, found: set<int>)
    requires t in Step(s, action).open && Step(s, action).open[t].stage == Deactivated && !TakesUpdate(s, action, t)
    requires t in s.open && s.open[t].stage == Deactivated ==> MarksTell(s, s.open[t], found)
    requires found <= s.chats.Keys && Grows(s, Step(s, action))
    ensures MarksTell(Step(s, action), Step(s, action).open[t], found)
  {
    var next := Step(s, action);
    assert t in s.open && s.open[t] == next.open[t];
    forall id | id in found && IsChat(next, id, next.open[t].actor, next.open[t].target) && next.chats[id].isActive
      ensures id in next.open[t].dead
    {
      assert IsChat(s, id, next.open[t].actor, next.open[t].target) && s.chats[id].isActive;
    }
  }

  lemma {:induction false} FoundWasCommitted(actions: seq<Action>, t: nat)
    ensures ChatsAtUpdate(actions, t) <= Run(actions).chats.Keys
  {
    if actions != [] {
      var front, last := actions[..|actions| - 1], actions[|actions| - 1];
      FoundWasCommitted(front, t);
      ReachableSafe(front);
      StepSafe(Run(front), last);
    }
  }

  lemma {:induction false} UpdatesTellTruth(actions: seq<Action>)
    ensures UpdatesTell(actions)
  {
    if actions != [] {
      var front, last := actions[..|actions| - 1], actions[|actions| - 1];
      var s, next := Run(front), Run(actions);
      UpdatesTellTruth(front);
      ReachableSafe(front);
      StepSafe(s, last);
      forall t | t in next.open && next.open[t].stage == Deactivated
        ensures MarksTell(next, next.open[t], ChatsAtUpdate(actions, t))
      {
        if TakesUpdate(s, last, t) {
          UpdateMarks(s, t);
        } else {
          FoundWasCommitted(front, t);
          MarksStay(s, last, t, ChatsAtUpdate(front, t));
        }
      }
    }
  }

  /** Activity of a committed chat changes only by the commit of a block that marked it. */
  lemma ActivityStep(s: State, action: Action, id: int)
    requires Safe(s) && id in s.chats
    ensures var next := Step(s, action);
            && id in next.chats
            && (!next.chats[id].isActive <==>
                  !s.chats[id].isActive
                  || (CommitsBlock(s, action, s.chats[id].user1, s.chats[id].user2) && id in s.open[action.t].dead))
  {
    if action.Commit? && action.t in s.open && s.open[action.t].stage == Deactivated {
      assert TxHolds(s, s.open[action.t]);
    }
  }

  /** A chat is committed active, above every id found by an update before. */
  lemma NewChatActive(s: State, action: Action, id: int)
    requires Safe(s) && id !in s.chats && id in Step(s, action).chats
    ensures Step(s, action).chats[id].isActive && action.Commit? && action.t in s.open && s.open[action.t].stage == ChatSeen
  {
  }

  lemma {:induction false} ReachedWasCommitted(actions: seq<Action>, a: int, b: int)
    ensures ReachedByBlocks(actions, a, b) <= Run(actions).chats.Keys
  {
    if actions != [] {
      var front, last := actions[..|actions| - 1], actions[|actions| - 1];
      ReachedWasCommitted(front, a, b);
      if last.Commit? {
        FoundWasCommitted(front, last.t);
      }
      ReachableSafe(front);
      StepSafe(Run(front), last);
    }
  }

  /** Exactly which blocks deactivate a chat: a committed chat is inactive when a committed
      block of its pair ran its update after the chat's commit, and only then. */
  lemma {:induction false} InactiveIffBlockReached(actions: seq<Action>, id: int)
    requires id in Run(actions).chats
    ensures var chat := Run(actions).chats[id];
            !chat.isActive <==> id in ReachedByBlocks(actions, chat.user1, chat.user2)
  {
    if actions != [] {
      var front, last := actions[..|actions| - 1], actions[|actions| - 1];
      var s := Run(front);
      var chat := Run(actions).chats[id];
      ReachableSafe(front);
      StepSafe(s, last);
      ReachedWasCommitted(front, chat.user1, chat.user2);
      if id in s.chats {
        InactiveIffBlockReached(front, id);
        ActivityStep(s, last, id);
        UpdatesTellTruth(front);
        if CommitsBlock(s, last, chat.user1, chat.user2) {
          BlockMarks(s, last.t, ChatsAtUpdate(front, last.t), id);
        }
      } else {
        NewChatActive(s, last, id);
      }
    }
  }

  /** For a chat of its pair that is still active, being marked is being found. */
  lemma BlockMarks(s: State, t: nat, found: set<int>, id: int)
    requires id in s.chats && t in s.open && OnPair(s.open[t], s.chats[id].user1, s.chats[id].user2)
    requires MarksTell(s, s.open[t], found)
    ensures s.chats[id].isActive ==> (id in s.open[t].dead <==> id in found)
  {
    if s.chats[id].isActive && id in found {
      assert IsChat(s, id, s.open[t].actor, s.open[t].target);
    }
  }
}
