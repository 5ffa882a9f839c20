/** Like and block transactions interleaved statement by statement: each statement sees
    what is committed plus its own writes, and waits for a conflicting uncommitted row. */
module ReadCommitted {
  import opened Common
  import opened Schema

  /** How far a transaction has come: the like stages, then the block stages. */
  datatype Stage =
    | Begun | Checked | Swiped | Unmatched | Matched | ChatStored | ChatSeen
    | BlockBegun | BanStored | Deactivated

  /** An open transaction with its uncommitted writes: the swipe and the chat row of a
      like (None when the row was already there), the chats a block deactivates. */
  datatype Tx = Tx(actor: int, target: int, stage: Stage,
                   ownSwipe: bool, ownChat: Option<int>, seen: Option<int>, dead: set<int>)

  /** Committed rows, open transactions, and the replies of matching likes. */
  datatype State = State(
    swipes: set<Pair>, bans: map<Pair, bool>, chats: map<int, Chat>, nextChatId: int,
    open: map<nat, Tx>, replies: set<(int, int, int)>)

  const START := State({}, map[], map[], 1, map[], {})

  datatype Action =
    | BeginLike(t: nat, actor: int, target: int)
    | CheckExcluded(t: nat)
    | InsertSwipe(t: nat)
    | CheckMutual(t: nat)
    | InsertChat(t: nat)
    | SelectChat(t: nat)
    | BeginBlock(t: nat, actor: int, target: int)
    | UpsertBan(t: nat)
    | UpdateChats(t: nat)
    | Commit(t: nat)
    | Rollback(t: nat)
    | DislikeNow(actor: int, target: int)
    | UnblockNow(actor: int, target: int)

  predicate OnPair(tx: Tx, a: int, b: int) {
    (tx.actor == a && tx.target == b) || (tx.actor == b && tx.target == a)
  }

  predicate PassedCheck(tx: Tx) {
    tx.stage in {Checked, Swiped, Unmatched, Matched, ChatStored, ChatSeen}
  }

  predicate HasStoredSwipe(tx: Tx) {
    tx.stage in {Swiped, Unmatched, Matched, ChatStored, ChatSeen}
  }

  predicate HasStoredChat(tx: Tx) {
    tx.stage in {ChatStored, ChatSeen}
  }

  predicate HoldsBan(tx: Tx) {
    tx.stage in {BanStored, Deactivated}
  }

  predicate IsChat(s: State, id: int, a: int, b: int) {
    id in s.chats && IsBetween(s.chats[id], a, b)
  }

  predicate HasChat(s: State, a: int, b: int) {
    exists id :: id in s.chats && IsChat(s, id, a, b)
  }

  predicate BannedEitherWay(s: State, a: int, b: int) {
    ((a, b) in s.bans && s.bans[(a, b)]) || ((b, a) in s.bans && s.bans[(b, a)])
  }

  predicate Swiping(s: State, a: int, b: int) {
    exists u :: u in s.open && s.open[u].ownSwipe && s.open[u].actor == a && s.open[u].target == b
  }

  predicate StoringChat(s: State, a: int, b: int) {
    exists u :: u in s.open && s.open[u].ownChat.Some? && OnPair(s.open[u], a, b)
  }

  predicate Banning(s: State, a: int, b: int) {
    exists u :: u in s.open && HoldsBan(s.open[u]) && s.open[u].actor == a && s.open[u].target == b
  }

  /** Active committed chats of the pair: the rows an UPDATE chats would lock. */
  function ActiveBetween(s: State, a: int, b: int): set<int> {
    set id | id in s.chats && s.chats[id].isActive && IsBetween(s.chats[id], a, b)
  }

  predicate RowsLocked(s: State, ids: set<int>) {
    exists u :: u in s.open && !(s.open[u].dead !! ids)
  }

  function WithTx(s: State, t: nat, tx: Tx): State {
    s.(open := s.open[t := tx])
  }

  function Drop(s: State, t: nat): State {
    s.(open := s.open - {t})
  }

  /** One statement. A statement that must wait, or does not apply, leaves the state alone. */
  ghost function Step(s: State, action: Action): State {
    match action
    case BeginLike(t, a, b) =>
      if t in s.open || a == b then s else WithTx(s, t, Tx(a, b, Begun, false, None, None, {}))
    case BeginBlock(t, a, b) =>
      if t in s.open || a == b then s else WithTx(s, t, Tx(a, b, BlockBegun, false, None, None, {}))
    case CheckExcluded(t) => if t in s.open && s.open[t].stage == Begun then StepCheckExcluded(s, t) else s
    case InsertSwipe(t) => if t in s.open && s.open[t].stage == Checked then StepInsertSwipe(s, t) else s
    case CheckMutual(t) => if t in s.open && s.open[t].stage == Swiped then StepCheckMutual(s, t) else s
    case InsertChat(t) => if t in s.open && s.open[t].stage == Matched then StepInsertChat(s, t) else s
    case SelectChat(t) => if t in s.open && s.open[t].stage == ChatStored then StepSelectChat(s, t) else s
    case UpsertBan(t) =>
      if t in s.open && s.open[t].stage == BlockBegun && !Banning(s, s.open[t].actor, s.open[t].target)
      then WithTx(s, t, s.open[t].(stage := BanStored)) else s
    case UpdateChats(t) => if t in s.open && s.open[t].stage == BanStored then StepUpdateChats(s, t) else s
    case Commit(t) =>
      if t !in s.open then s
      else if s.open[t].stage in {Unmatched, ChatSeen} then CommitLike(s, t)
      else if s.open[t].stage == Deactivated then CommitBlock(s, t)
      else s
    case Rollback(t) => Drop(s, t)
    case DislikeNow(a, b) =>
      if a == b || Banning(s, a, b) || (a, b) in s.bans then s else s.(bans := s.bans[(a, b) := false])
    case UnblockNow(a, b) =>
      if a == b || Banning(s, a, b) || !((a, b) in s.bans && s.bans[(a, b)]) then s else s.(bans := s.bans - {(a, b)})
  }

  lemma LockedRows(s: State, ids: set<int>)
    ensures RowsLocked(s, ids) <==> exists u, id :: u in s.open && id in s.open[u].dead && id in ids
  {
    if forall u, id :: u in s.open && id in s.open[u].dead ==> id !in ids {
      forall u | u in s.open
        ensures s.open[u].dead !! ids
      {
        assert forall id :: id in s.open[u].dead ==> id !in ids;
      }
    }
  }

  /** Which statements wait: a swipe or a ban for another transaction's row of the same two users
      in the same order, a chat for one of the same pair, an update for rows another has updated. */
  lemma StatementsWait(s: State, t: nat)
    requires t in s.open
    ensures var tx := s.open[t];
            && (tx.stage == Checked ==> (Step(s, InsertSwipe(t)) == s <==>
                  exists u :: u in s.open && s.open[u].ownSwipe && s.open[u].actor == tx.actor && s.open[u].target == tx.target))
            && (tx.stage == Matched ==> (Step(s, InsertChat(t)) == s <==>
                  exists u :: u in s.open && s.open[u].ownChat.Some? && {s.open[u].actor, s.open[u].target} == {tx.actor, tx.target}))
            && (tx.stage == BlockBegun ==> (Step(s, UpsertBan(t)) == s <==>
                  exists u :: u in s.open && s.open[u].stage in {BanStored, Deactivated}
                              && s.open[u].actor == tx.actor && s.open[u].target == tx.target))
            && (tx.stage == BanStored ==> (Step(s, UpdateChats(t)) == s <==>
                  exists u, id :: u in s.open && id in s.open[u].dead && id in s.chats && s.chats[id].isActive
                                  && {s.chats[id].user1, s.chats[id].user2} == {tx.actor, tx.target}))
  {
    var tx := s.open[t];
    if tx.stage == Checked && !Swiping(s, tx.actor, tx.target) {
      assert Step(s, InsertSwipe(t)).open[t].stage == Swiped;
    } else if tx.stage == Matched && !StoringChat(s, tx.actor, tx.target) {
      assert Step(s, InsertChat(t)).open[t].stage == ChatStored;
    } else if tx.stage == BlockBegun && !Banning(s, tx.actor, tx.target) {
      assert Step(s, UpsertBan(t)).open[t].stage == BanStored;
    } else if tx.stage == BanStored {
      var rows := ActiveBetween(s, tx.actor, tx.target);
      LockedRows(s, rows);
      assert !RowsLocked(s, rows) ==> Step(s, UpdateChats(t)).open[t].stage == Deactivated;
      assert forall id :: id in rows <==>
        id in s.chats && s.chats[id].isActive && {s.chats[id].user1, s.chats[id].user2} == {tx.actor, tx.target};
    }
  }

  function StepCheckExcluded(s: State, t: nat): State
    requires t in s.open
  {
    var tx := s.open[t];
    if (tx.actor, tx.target) in s.bans || (tx.target, tx.actor) in s.bans then Drop(s, t)
    else WithTx(s, t, tx.(stage := Checked))
  }

  function StepInsertSwipe(s: State, t: nat): State
    requires t in s.open
  {
    var tx := s.open[t];
    if Swiping(s, tx.actor, tx.target) then s
    else WithTx(s, t, tx.(stage := Swiped, ownSwipe := (tx.actor, tx.target) !in s.swipes))
  }

  function StepCheckMutual(s: State, t: nat): State
    requires t in s.open
  {
    var tx := s.open[t];
    WithTx(s, t, tx.(stage := if (tx.target, tx.actor) in s.swipes then Matched else Unmatched))
  }

  function StepInsertChat(s: State, t: nat): State
    requires t in s.open
  {
    var tx := s.open[t];
    if StoringChat(s, tx.actor, tx.target) then s
    else
      var own := if HasChat(s, tx.actor, tx.target) then None else Some(s.nextChatId);
      WithTx(s, t, tx.(stage := ChatStored, ownChat := own)).(nextChatId := s.nextChatId + 1)
  }

  /** SELECT id FROM chats: the own row, or the committed one. */
  ghost function StepSelectChat(s: State, t: nat): State
    requires t in s.open
  {
    var tx := s.open[t];
    if tx.ownChat.Some? then WithTx(s, t, tx.(stage := ChatSeen, seen := tx.ownChat))
    else if HasChat(s, tx.actor, tx.target) then
      var id :| id in s.chats && IsChat(s, id, tx.actor, tx.target);
      WithTx(s, t, tx.(stage := ChatSeen, seen := Some(id)))
    else Drop(s, t)
  }

  function StepUpdateChats(s: State, t: nat): State
    requires t in s.open
  {
    var tx := s.open[t];
    var rows := ActiveBetween(s, tx.actor, tx.target);
    if RowsLocked(s, rows) then s else WithTx(s, t, tx.(stage := Deactivated, dead := rows))
  }

  function CommitLike(s: State, t: nat): State
    requires t in s.open
  {
    var tx := s.open[t];
    Drop(s, t).(
      swipes := if tx.ownSwipe then s.swipes + {(tx.actor, tx.target)} else s.swipes,
      chats := if tx.ownChat.Some? then s.chats[tx.ownChat.value := Chat(tx.actor, tx.target, true)] else s.chats,
      replies := if tx.seen.Some? then s.replies + {(tx.actor, tx.target, tx.seen.value)} else s.replies)
  }

  function CommitBlock(s: State, t: nat): State
    requires t in s.open
  {
    var tx := s.open[t];
    Drop(s, t).(
      bans := s.bans[(tx.actor, tx.target) := true],
      chats := map id | id in s.chats :: if id in tx.dead then s.chats[id].(isActive := false) else s.chats[id])
  }

  ghost function Run(actions: seq<Action>): State {
    if actions == [] then START else Step(Run(actions[..|actions| - 1]), actions[|actions| - 1])
  }

  // ----- What survives any interleaving -----

  ghost predicate OneChatPerPair(s: State) {
    && 1 <= s.nextChatId
    && (forall i :: i in s.chats ==> 1 <= i < s.nextChatId && s.chats[i].user1 != s.chats[i].user2)
    && (forall i, j :: i in s.chats && j in s.chats && IsBetween(s.chats[i], s.chats[j].user1, s.chats[j].user2) ==> i == j)
  }

  ghost predicate ChatsAreMutual(s: State) {
    forall i :: i in s.chats ==> (s.chats[i].user1, s.chats[i].user2) in s.swipes && (s.chats[i].user2, s.chats[i].user1) in s.swipes
  }

  ghost predicate RepliesHold(s: State) {
    forall r :: r in s.replies ==> IsChat(s, r.2, r.0, r.1)
  }

  /** What an open transaction may rely on. */
  ghost predicate TxHolds(s: State, tx: Tx) {
    && tx.actor != tx.target
    && (tx.ownSwipe ==> HasStoredSwipe(tx) && (tx.actor, tx.target) !in s.swipes)
    && (HasStoredSwipe(tx) ==> tx.ownSwipe || (tx.actor, tx.target) in s.swipes)
    && (tx.stage in {Matched, ChatStored, ChatSeen} ==> (tx.target, tx.actor) in s.swipes)
    && (tx.ownChat.Some? ==> HasStoredChat(tx) && 1 <= tx.ownChat.value < s.nextChatId
                             && tx.ownChat.value !in s.chats && !HasChat(s, tx.actor, tx.target))
    && (HasStoredChat(tx) ==> tx.ownChat.Some? || HasChat(s, tx.actor, tx.target))
    && (tx.stage == ChatSeen <==> tx.seen.Some?)
    && (tx.seen.Some? ==> tx.seen == tx.ownChat || (tx.ownChat.None? && IsChat(s, tx.seen.value, tx.actor, tx.target)))
    && (forall id :: id in tx.dead ==> tx.stage == Deactivated && IsChat(s, id, tx.actor, tx.target))
  }

  /** The unique indexes keep uncommitted rows of different transactions apart. */
  ghost predicate NoConflict(s: State) {
    forall t, u :: t in s.open && u in s.open && t != u ==>
      && (s.open[t].ownSwipe && s.open[u].ownSwipe ==> (s.open[t].actor, s.open[t].target) != (s.open[u].actor, s.open[u].target))
      && (s.open[t].ownChat.Some? && s.open[u].ownChat.Some? ==>
            s.open[t].ownChat != s.open[u].ownChat && !OnPair(s.open[t], s.open[u].actor, s.open[u].target))
  }

  ghost predicate Safe(s: State) {
    && OneChatPerPair(s) && ChatsAreMutual(s) && RepliesHold(s) && NoConflict(s)
    && forall t :: t in s.open ==> TxHolds(s, s.open[t])
  }

  /** Committed rows only grow: swipes, chat rows with their pair, the sequence. */
  ghost predicate Grows(s: State, next: State) {
    && s.swipes <= next.swipes
    && s.nextChatId <= next.nextChatId
    && forall i :: i in s.chats ==>
         i in next.chats && next.chats[i].user1 == s.chats[i].user1 && next.chats[i].user2 == s.chats[i].user2
         && (next.chats[i].isActive ==> s.chats[i].isActive)
  }

  lemma ChatStays(s: State, next: State, a: int, b: int)
    requires Grows(s, next) && HasChat(s, a, b)
    ensures HasChat(next, a, b)
  {
    var id :| id in s.chats && IsChat(s, id, a, b);
    assert IsChat(next, id, a, b);
  }

  lemma TxStillHolds(s: State, next: State, tx: Tx)
    requires Grows(s, next) && TxHolds(s, tx)
    requires tx.ownSwipe ==> (tx.actor, tx.target) !in next.swipes
    requires tx.ownChat.Some? ==> tx.ownChat.value !in next.chats && !HasChat(next, tx.actor, tx.target)
    ensures TxHolds(next, tx)
  {
    if HasStoredChat(tx) && tx.ownChat.None? {
      ChatStays(s, next, tx.actor, tx.target);
    }
  }

  /** A statement of one transaction that writes nothing committed. */
  lemma OwnStepSafe(s: State, next: State, t: nat, tx: Tx)
    requires Safe(s) && t in s.open
    requires next == WithTx(s, t, tx).(nextChatId := next.nextChatId)
    requires s.nextChatId <= next.nextChatId && TxHolds(next, tx)
    requires tx.ownSwipe && !s.open[t].ownSwipe ==> !Swiping(s, tx.actor, tx.target)
    requires tx.actor == s.open[t].actor && tx.target == s.open[t].target
    requires tx.ownChat == s.open[t].ownChat
             || (tx.ownChat == Some(s.nextChatId) && !StoringChat(s, tx.actor, tx.target))
    ensures Safe(next)
  {
    assert next.chats == s.chats && next.swipes == s.swipes;
    forall a, b ensures HasChat(next, a, b) <==> HasChat(s, a, b) {
      assert forall id :: IsChat(next, id, a, b) <==> IsChat(s, id, a, b);
    }
    forall u | u in next.open ensures TxHolds(next, next.open[u]) {
      if u != t {
        TxStillHolds(s, next, s.open[u]);
      }
    }
  }

  lemma DropSafe(s: State, t: nat)
    requires Safe(s)
    ensures Safe(Drop(s, t))
  {
    var next := Drop(s, t);
    forall a, b ensures HasChat(next, a, b) <==> HasChat(s, a, b) {
      assert forall id :: IsChat(next, id, a, b) <==> IsChat(s, id, a, b);
    }
    forall u | u in next.open ensures TxHolds(next, next.open[u]) {
      TxStillHolds(s, next, s.open[u]);
    }
  }

  lemma BeginSafe(s: State, t: nat, tx: Tx)
    requires Safe(s) && t !in s.open && tx.actor != tx.target && tx.stage in {Begun, BlockBegun}
    requires !tx.ownSwipe && tx.ownChat.None? && tx.seen.None? && tx.dead == {}
    ensures Safe(WithTx(s, t, tx))
  {
    var next := WithTx(s, t, tx);
    forall u | u in next.open ensures TxHolds(next, next.open[u]) {
      if u != t {
        forall a, b ensures HasChat(next, a, b) <==> HasChat(s, a, b) {
          assert forall id :: IsChat(next, id, a, b) <==> IsChat(s, id, a, b);
        }
        TxStillHolds(s, next, s.open[u]);
      }
    }
  }

  lemma SameRowsSafe(s: State, next: State)
    requires Safe(s) && next == s.(bans := next.bans)
    ensures Safe(next)
  {
    forall a, b ensures HasChat(next, a, b) <==> HasChat(s, a, b) {
      assert forall id :: IsChat(next, id, a, b) <==> IsChat(s, id, a, b);
    }
    forall u | u in next.open ensures TxHolds(next, next.open[u]) {
      TxStillHolds(s, next, s.open[u]);
    }
  }

  lemma InsertSwipeSafe(s: State, t: nat)
    requires Safe(s) && t in s.open && s.open[t].stage == Checked
    ensures Safe(StepInsertSwipe(s, t))
  {
    if !Swiping(s, s.open[t].actor, s.open[t].target) {
      OwnStepSafe(s, StepInsertSwipe(s, t), t, StepInsertSwipe(s, t).open[t]);
    }
  }

  lemma InsertChatSafe(s: State, t: nat)
    requires Safe(s) && t in s.open && s.open[t].stage == Matched
    ensures Safe(StepInsertChat(s, t))
  {
    var tx, next := s.open[t], StepInsertChat(s, t);
    if !StoringChat(s, tx.actor, tx.target) {
      forall a, b ensures HasChat(next, a, b) <==> HasChat(s, a, b) {
        assert forall id :: IsChat(next, id, a, b) <==> IsChat(s, id, a, b);
      }
      OwnStepSafe(s, next, t, next.open[t]);
    }
  }

  lemma SelectChatSafe(s: State, t: nat)
    requires Safe(s) && t in s.open && s.open[t].stage == ChatStored
    ensures Safe(StepSelectChat(s, t))
  {
    var tx, next := s.open[t], StepSelectChat(s, t);
    assert t in next.open && next.open[t].stage == ChatSeen;
    forall a, b ensures HasChat(next, a, b) <==> HasChat(s, a, b) {
      assert forall id :: IsChat(next, id, a, b) <==> IsChat(s, id, a, b);
    }
    OwnStepSafe(s, next, t, next.open[t]);
  }

  lemma CommitLikeSafe(s: State, t: nat)
    requires Safe(s) && t in s.open && s.open[t].stage in {Unmatched, ChatSeen}
    ensures Safe(CommitLike(s, t)) && Grows(s, CommitLike(s, t))
  {
    var tx, next := s.open[t], CommitLike(s, t);
    CommitLikeRows(s, t);
    forall u | u in next.open ensures TxHolds(next, next.open[u]) {
      var other := s.open[u];
      if other.ownChat.Some? {
        assert other.ownChat.value !in next.chats;
        assert !HasChat(next, other.actor, other.target) by {
          assert forall id :: id in s.chats ==> !IsChat(s, id, other.actor, other.target);
        }
      }
      TxStillHolds(s, next, other);
    }
  }

  lemma CommitLikeRows(s: State, t: nat)
    requires Safe(s) && t in s.open && s.open[t].stage in {Unmatched, ChatSeen}
    ensures var next := CommitLike(s, t);
            Grows(s, next) && OneChatPerPair(next) && ChatsAreMutual(next) && RepliesHold(next) && NoConflict(next)
  {
    var tx, next := s.open[t], CommitLike(s, t);
    if tx.ownChat.Some? {
      assert forall id :: id in s.chats ==> !IsChat(s, id, tx.actor, tx.target);
    }
  }

  lemma CommitBlockSafe(s: State, t: nat)
    requires Safe(s) && t in s.open && s.open[t].stage == Deactivated
    ensures Safe(CommitBlock(s, t)) && Grows(s, CommitBlock(s, t))
  {
    var next := CommitBlock(s, t);
    forall a, b ensures HasChat(next, a, b) <==> HasChat(s, a, b) {
      assert forall id :: IsChat(next, id, a, b) <==> IsChat(s, id, a, b);
    }
    forall u | u in next.open ensures TxHolds(next, next.open[u]) {
      TxStillHolds(s, next, s.open[u]);
    }
  }

  lemma CheckExcludedSafe(s: State, t: nat)
    requires Safe(s) && t in s.open && s.open[t].stage == Begun
    ensures Safe(StepCheckExcluded(s, t)) && Grows(s, StepCheckExcluded(s, t))
  {
    var next := StepCheckExcluded(s, t);
    if next == Drop(s, t) {
      DropSafe(s, t);
    } else {
      OwnStepSafe(s, next, t, s.open[t].(stage := Checked));
    }
  }

  lemma CheckMutualSafe(s: State, t: nat)
    requires Safe(s) && t in s.open && s.open[t].stage == Swiped
    ensures Safe(StepCheckMutual(s, t)) && Grows(s, StepCheckMutual(s, t))
  {
    var tx := s.open[t];
    var mutual := (tx.target, tx.actor) in s.swipes;
    OwnStepSafe(s, StepCheckMutual(s, t), t, tx.(stage := if mutual then Matched else Unmatched));
  }

  lemma CheckStatementSafe(s: State, action: Action)
    requires Safe(s) && (action.CheckExcluded? || action.CheckMutual?)
    ensures Safe(Step(s, action)) && Grows(s, Step(s, action))
  {
    var t := action.t;
    if action.CheckExcluded? && t in s.open && s.open[t].stage == Begun {
      CheckExcludedSafe(s, t);
    } else if action.CheckMutual? && t in s.open && s.open[t].stage == Swiped {
      CheckMutualSafe(s, t);
    }
  }

  lemma LikeStatementSafe(s: State, action: Action)
    requires Safe(s) && (action.InsertSwipe? || action.InsertChat? || action.SelectChat?)
    ensures Safe(Step(s, action)) && Grows(s, Step(s, action))
  {
    var t := action.t;
    if t in s.open {
      if action.InsertSwipe? && s.open[t].stage == Checked {
        InsertSwipeSafe(s, t);
      } else if action.InsertChat? && s.open[t].stage == Matched {
        InsertChatSafe(s, t);
      } else if action.SelectChat? && s.open[t].stage == ChatStored {
        SelectChatSafe(s, t);
      }
    }
  }

  lemma BlockStatementSafe(s: State, action: Action)
    requires Safe(s) && (action.UpsertBan? || action.UpdateChats?)
    ensures Safe(Step(s, action)) && Grows(s, Step(s, action))
  {
    var t, next := action.t, Step(s, action);
    if next != s {
      OwnStepSafe(s, next, t, next.open[t]);
    }
  }

  lemma BeginStatementSafe(s: State, action: Action)
    requires Safe(s) && (action.BeginLike? || action.BeginBlock?)
    ensures Safe(Step(s, action)) && Grows(s, Step(s, action))
  {
    if Step(s, action) != s {
      BeginSafe(s, action.t, Step(s, action).open[action.t]);
    }
  }

  lemma CommitSafe(s: State, t: nat)
    requires Safe(s)
    ensures Safe(Step(s, Commit(t))) && Grows(s, Step(s, Commit(t)))
  {
    if t in s.open && s.open[t].stage in {Unmatched, ChatSeen} {
      CommitLikeSafe(s, t);
    } else if t in s.open && s.open[t].stage == Deactivated {
      CommitBlockSafe(s, t);
    }
  }

  lemma StepSafe(s: State, action: Action)
    requires Safe(s)
    ensures Safe(Step(s, action)) && Grows(s, Step(s, action))
  {
    match action
    case BeginLike(_, _, _) => BeginStatementSafe(s, action);
    case BeginBlock(_, _, _) => BeginStatementSafe(s, action);
    case CheckExcluded(_) => CheckStatementSafe(s, action);
    case CheckMutual(_) => CheckStatementSafe(s, action);
    case UpsertBan(_) => BlockStatementSafe(s, action);
    case UpdateChats(_) => BlockStatementSafe(s, action);
    case Commit(t) => CommitSafe(s, t);
    case Rollback(t) => DropSafe(s, t);
    case DislikeNow(_, _) => SameRowsSafe(s, Step(s, action));
    case UnblockNow(_, _) => SameRowsSafe(s, Step(s, action));
    case _ => LikeStatementSafe(s, action);
  }

  /** In every reachable state of every interleaving there is at most one committed chat
      per unordered pair, both likes of a committed chat are committed, and the id a
      matching like answered with is the pair's chat. */
  lemma {:induction false} ReachableSafe(actions: seq<Action>)
    ensures Safe(Run(actions))
    ensures var s := Run(actions);
            && (forall i, j :: i in s.chats && j in s.chats && IsBetween(s.chats[i], s.chats[j].user1, s.chats[j].user2) ==> i == j)
            && (forall i :: i in s.chats ==>
                  (s.chats[i].user1, s.chats[i].user2) in s.swipes && (s.chats[i].user2, s.chats[i].user1) in s.swipes)
            && (forall r :: r in s.replies ==> r.2 in s.chats && {s.chats[r.2].user1, s.chats[r.2].user2} == {r.0, r.1})
  {
    if actions != [] {
      ReachableSafe(actions[..|actions| - 1]);
      StepSafe(Run(actions[..|actions| - 1]), actions[|actions| - 1]);
    }
  }

  /** Committed swipes and chats are never lost and a deactivated chat stays so,
      whatever is interleaved afterwards. */
  lemma {:induction false} ReachableGrows(actions: seq<Action>, more: seq<Action>)
    ensures Grows(Run(actions), Run(actions + more))
  {
    if more == [] {
      assert actions + more == actions;
    } else {
      var last := |more| - 1;
      assert (actions + more)[..|actions| + last] == actions + more[..last];
      ReachableGrows(actions, more[..last]);
      ReachableSafe(actions + more[..last]);
      StepSafe(Run(actions + more[..last]), more[last]);
    }
  }
}
