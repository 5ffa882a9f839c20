/** One open transaction per pair is enough for serializability: the committed rows of every
    such interleaving are those of a serial run of the same transactions, up to chat ids. */
module ReadCommittedSerializable {
  import opened Common
  import opened Calendar
  import opened Schema
  import S = RibbonStore
  import R = RibbonRuns
  import V = PairView
  import opened SerialOrder
  import opened ReadCommitted

  predicate PairOpen(s: State, a: int, b: int) {
    exists u :: u in s.open && OnPair(s.open[u], a, b)
  }

  /** No transaction begins on a pair that has one open; other pairs interleave freely. */
  ghost predicate PairLocked(actions: seq<Action>) {
    forall i :: 0 <= i < |actions| && (actions[i].BeginLike? || actions[i].BeginBlock?) ==>
      !PairOpen(Run(actions[..i]), actions[i].actor, actions[i].target)
  }

  // ----- The serial order -----

  predicate PassesCheck(s: State, t: nat) {
    && t in s.open && s.open[t].stage == Begun
    && (s.open[t].actor, s.open[t].target) !in s.bans && (s.open[t].target, s.open[t].actor) !in s.bans
  }

  /** A like takes its place when it passes its exclusion check, a block when it commits, a
      dislike or an unblock at once. */
  function LogStep(s: State, log: seq<Slot>, action: Action): seq<Slot> {
    match action
    case CheckExcluded(t) => if PassesCheck(s, t) then log + [Pending(t, s.open[t].actor, s.open[t].target)] else log
    case Commit(t) =>
      if t !in s.open then log
      else if s.open[t].stage in {Unmatched, ChatSeen} then Settle(log, t, true)
      else if s.open[t].stage == Deactivated then log + [Done(R.Block(s.open[t].actor, s.open[t].target))]
      else log
    case Rollback(t) => Settle(log, t, false)
    case DislikeNow(a, b) => if a == b || Banning(s, a, b) then log else log + [Done(R.Dislike(a, b))]
    case UnblockNow(a, b) => if a == b || Banning(s, a, b) then log else log + [Done(R.Unblock(a, b))]
    case _ => log
  }

  ghost function Log(actions: seq<Action>): seq<Slot> {
    if actions == [] then []
    else LogStep(Run(actions[..|actions| - 1]), Log(actions[..|actions| - 1]), actions[|actions| - 1])
  }

  /** The committed operations in serial order. */
  ghost function SerialOps(actions: seq<Action>): seq<R.Op> {
    Ops(Log(actions))
  }

  // ----- What holds throughout -----

  ghost predicate Exclusive(s: State) {
    forall t, u :: t in s.open && u in s.open && t != u ==> !OnPair(s.open[t], s.open[u].actor, s.open[u].target)
  }

  /** Nobody else has touched the pair of an open transaction since it looked at it. */
  ghost predicate StillTrue(s: State) {
    forall t :: t in s.open ==>
      && (s.open[t].stage == Unmatched ==> (s.open[t].target, s.open[t].actor) !in s.swipes)
      && (s.open[t].stage == Deactivated ==> ActiveBetween(s, s.open[t].actor, s.open[t].target) <= s.open[t].dead)
  }

  /** Slot p belongs to the open like it names. */
  ghost predicate IsSlotOf(s: State, slot: Slot) {
    slot.Pending? ==>
      slot.t in s.open && PassedCheck(s.open[slot.t]) && s.open[slot.t].actor == slot.actor && s.open[slot.t].target == slot.target
  }

  /** The pending slots are those of the open likes that have passed their check, one each. */
  ghost predicate Placed(s: State, log: seq<Slot>) {
    && (forall p :: 0 <= p < |log| ==> IsSlotOf(s, log[p]))
    && (forall t :: t in s.open && PassedCheck(s.open[t]) ==> HasSlot(log, t))
  }

  ghost predicate ShowsRows(s: State, v: V.View) {
    s.swipes == v.swipes && s.bans == v.bans && V.ShowsChats(s.chats, v.chats)
  }

  ghost predicate Inv(s: State, log: seq<Slot>) {
    && Safe(s) && Exclusive(s) && StillTrue(s)
    && Placed(s, log) && AllFree(log) && ShowsRows(s, ViewOf(log))
  }

  // ----- Exclusive pairs -----

  lemma StepKeepsPairs(s: State, action: Action)
    requires !action.BeginLike? && !action.BeginBlock?
    ensures forall t :: t in Step(s, action).open ==>
              t in s.open && Step(s, action).open[t].actor == s.open[t].actor
              && Step(s, action).open[t].target == s.open[t].target
  {
  }

  lemma ExclusiveStep(s: State, action: Action)
    requires Exclusive(s)
    requires action.BeginLike? || action.BeginBlock? ==> !PairOpen(s, action.actor, action.target)
    ensures Exclusive(Step(s, action))
  {
    if !action.BeginLike? && !action.BeginBlock? {
      StepKeepsPairs(s, action);
    }
  }

  // ----- Statements that commit nothing -----

  predicate IsInner(action: Action) {
    action.BeginLike? || action.BeginBlock? || action.InsertSwipe? || action.CheckMutual? || action.InsertChat?
    || action.SelectChat? || action.UpsertBan? || action.UpdateChats?
  }

  lemma InnerRows(s: State, action: Action)
    requires IsInner(action)
    ensures Step(s, action).swipes == s.swipes && Step(s, action).bans == s.bans && Step(s, action).chats == s.chats
  {
  }

  /** A like behind its exclusion check, still the same one. */
  predicate StillLikes(next: State, t: nat, tx: Tx) {
    t in next.open && PassedCheck(next.open[t]) && next.open[t].actor == tx.actor && next.open[t].target == tx.target
  }

  /** The open likes behind their exclusion check stay the same ones. */
  ghost predicate SameLikes(s: State, next: State) {
    && (forall t :: t in s.open && PassedCheck(s.open[t]) ==> StillLikes(next, t, s.open[t]))
    && (forall t :: t in next.open && PassedCheck(next.open[t]) ==> t in s.open && PassedCheck(s.open[t]))
  }

  lemma InnerLike(s: State, action: Action, t: nat)
    requires IsInner(action) && !action.SelectChat?
    ensures var next := Step(s, action);
            && (t in s.open && PassedCheck(s.open[t]) ==> StillLikes(next, t, s.open[t]))
            && (t in next.open && PassedCheck(next.open[t]) ==> t in s.open && PassedCheck(s.open[t]))
  {
  }

  /** A chat row that was stored, or was there already, is found. */
  lemma SelectLikes(s: State, t: nat)
    requires Safe(s)
    ensures SameLikes(s, Step(s, SelectChat(t)))
  {
    var next := Step(s, SelectChat(t));
    if t in s.open && s.open[t].stage == ChatStored {
      assert TxHolds(s, s.open[t]);
      assert next.open.Keys == s.open.Keys;
      assert next.open[t].stage == ChatSeen && next.open[t].actor == s.open[t].actor && next.open[t].target == s.open[t].target;
      assert forall u :: u in s.open && u != t ==> next.open[u] == s.open[u];
    }
  }

  lemma InnerLikes(s: State, action: Action)
    requires Safe(s) && IsInner(action)
    ensures SameLikes(s, Step(s, action))
  {
    if action.SelectChat? {
      SelectLikes(s, action.t);
    } else {
      var next := Step(s, action);
      forall t | t in s.open && PassedCheck(s.open[t])
        ensures StillLikes(next, t, s.open[t])
      {
        InnerLike(s, action, t);
      }
      forall t | t in next.open && PassedCheck(next.open[t])
        ensures t in s.open && PassedCheck(s.open[t])
      {
        InnerLike(s, action, t);
      }
    }
  }

  lemma InnerStillTrue(s: State, action: Action)
    requires Safe(s) && StillTrue(s) && IsInner(action)
    ensures StillTrue(Step(s, action))
  {
    InnerRows(s, action);
    var next := Step(s, action);
    forall t | t in next.open
      ensures next.open[t].stage == Unmatched ==> (next.open[t].target, next.open[t].actor) !in next.swipes
      ensures next.open[t].stage == Deactivated ==> ActiveBetween(next, next.open[t].actor, next.open[t].target) <= next.open[t].dead
    {
      InnerStage(s, action, t);
    }
  }

  lemma InnerStage(s: State, action: Action, t: nat)
    requires IsInner(action) && t in Step(s, action).open
    ensures var tx := Step(s, action).open[t];
            && (tx.stage == Unmatched ==> (t in s.open && s.open[t] == tx) || (tx.target, tx.actor) !in s.swipes)
            && (tx.stage == Deactivated ==> (t in s.open && s.open[t] == tx) || tx.dead == ActiveBetween(s, tx.actor, tx.target))
  {
  }

  lemma SameLikesPlaced(s: State, next: State, log: seq<Slot>)
    requires SameLikes(s, next) && Placed(s, log)
    ensures Placed(next, log)
  {
    forall p | 0 <= p < |log|
      ensures IsSlotOf(next, log[p])
    {
      assert IsSlotOf(s, log[p]);
    }
  }

  lemma InnerKeeps(s: State, log: seq<Slot>, action: Action)
    requires Inv(s, log) && IsInner(action) && Safe(Step(s, action)) && Exclusive(Step(s, action))
    ensures Inv(Step(s, action), log)
  {
    InnerRows(s, action);
    InnerLikes(s, action);
    InnerStillTrue(s, action);
    SameLikesPlaced(s, Step(s, action), log);
  }

  // ----- New slots -----

  /** A slot for a pair that no other open transaction is on is in nobody's way. */
  lemma InNobodysWay(s: State, log: seq<Slot>, t: nat, slot: Slot)
    requires Placed(s, log) && Exclusive(s) && t in s.open && NoSlot(log, t)
    requires forall a, b :: SlotContends(slot, a, b) ==> V.Key(a, b) == V.Key(s.open[t].actor, s.open[t].target)
    ensures forall p :: 0 <= p < |log| && log[p].Pending? ==> !SlotContends(slot, log[p].actor, log[p].target)
  {
    forall p | 0 <= p < |log| && log[p].Pending?
      ensures !SlotContends(slot, log[p].actor, log[p].target)
    {
      assert IsSlotOf(s, log[p]);
      assert !OnPair(s.open[t], log[p].actor, log[p].target);
    }
  }

  lemma NotPlacedYet(s: State, log: seq<Slot>, t: nat)
    requires Placed(s, log) && (t in s.open ==> !PassedCheck(s.open[t]))
    ensures NoSlot(log, t)
  {
    forall p | 0 <= p < |log| && log[p].Pending?
      ensures log[p].t != t
    {
      assert IsSlotOf(s, log[p]);
    }
  }

  lemma CheckPlaced(s: State, log: seq<Slot>, t: nat)
    requires Placed(s, log) && PassesCheck(s, t)
    ensures Placed(StepCheckExcluded(s, t), log + [Pending(t, s.open[t].actor, s.open[t].target)])
  {
    var next, slot := StepCheckExcluded(s, t), Pending(t, s.open[t].actor, s.open[t].target);
    NotPlacedYet(s, log, t);
    forall p | 0 <= p < |log + [slot]|
      ensures IsSlotOf(next, (log + [slot])[p])
    {
      assert p < |log| ==> IsSlotOf(s, log[p]);
    }
    forall u | u in next.open && PassedCheck(next.open[u])
      ensures HasSlot(log + [slot], u)
    {
      if u == t {
        NewOnlySlot(log, slot);
      } else {
        AppendHasSlot(log, slot, u);
      }
    }
  }

  lemma CheckKeeps(s: State, log: seq<Slot>, t: nat)
    requires Inv(s, log) && PassesCheck(s, t) && Safe(StepCheckExcluded(s, t)) && Exclusive(StepCheckExcluded(s, t))
    ensures Inv(StepCheckExcluded(s, t), log + [Pending(t, s.open[t].actor, s.open[t].target)])
  {
    var slot := Pending(t, s.open[t].actor, s.open[t].target);
    NotPlacedYet(s, log, t);
    InNobodysWay(s, log, t, slot);
    AppendFree(log, slot);
    CheckPlaced(s, log, t);
    OpsSnoc(log, slot);
    assert Ops(log) + [] == Ops(log);
  }

  lemma DropKeeps(s: State, log: seq<Slot>, t: nat)
    requires Inv(s, log) && (t in s.open ==> !PassedCheck(s.open[t])) && Safe(Drop(s, t)) && Exclusive(Drop(s, t))
    ensures Inv(Drop(s, t), log)
  {
    var next := Drop(s, t);
    DropLikes(s, t);
    SameLikesPlaced(s, next, log);
    assert StillTrue(next) by {
      assert forall u :: u in next.open ==> u in s.open && next.open[u] == s.open[u];
      assert forall a, b :: ActiveBetween(next, a, b) == ActiveBetween(s, a, b);
    }
  }

  lemma DropLikes(s: State, t: nat)
    requires t in s.open ==> !PassedCheck(s.open[t])
    ensures SameLikes(s, Drop(s, t))
  {
  }

  lemma DonePlaced(s: State, next: State, log: seq<Slot>, op: R.Op)
    requires Placed(s, log) && SameLikes(s, next)
    ensures Placed(next, log + [Done(op)])
  {
    SameLikesPlaced(s, next, log);
    forall u | u in next.open && PassedCheck(next.open[u])
      ensures HasSlot(log + [Done(op)], u)
    {
      AppendHasSlot(log, Done(op), u);
    }
  }

  // ----- Dislikes, unblocks and blocks -----

  lemma OtherBans(s: State, bans: map<Pair, bool>)
    requires Exclusive(s) && StillTrue(s)
    ensures var next := s.(bans := bans); Exclusive(next) && StillTrue(next) && SameLikes(s, next)
  {
    var next := s.(bans := bans);
    forall a, b
      ensures ActiveBetween(next, a, b) == ActiveBetween(s, a, b)
    {
    }
  }

  lemma BansShow(s: State, v: V.View, op: R.Op)
    requires ShowsRows(s, v) && (op.Dislike? || op.Unblock?)
    ensures ShowsRows(s.(bans := V.Apply(v, op).bans), V.Apply(v, op))
  {
  }

  /** Only the exclusions change, as the operation says. */
  lemma BansKeep(s: State, next: State, log: seq<Slot>, op: R.Op)
    requires Inv(s, log) && Safe(next) && (op.Dislike? || op.Unblock?)
    requires next == s.(bans := V.Apply(ViewOf(log), op).bans)
    ensures Inv(next, log + [Done(op)])
  {
    OtherBans(s, next.bans);
    AppendExclusion(log, op);
    DonePlaced(s, next, log, op);
    DoneView(log, op);
    BansShow(s, ViewOf(log), op);
  }

  lemma DislikeKeeps(s: State, log: seq<Slot>, a: int, b: int)
    requires Inv(s, log) && a != b && !Banning(s, a, b) && Safe(Step(s, DislikeNow(a, b)))
    ensures Inv(Step(s, DislikeNow(a, b)), log + [Done(R.Dislike(a, b))])
  {
    var op := R.Dislike(a, b);
    if (a, b) in s.bans {
      assert V.Apply(ViewOf(log), op).bans == s.bans;
    }
    BansKeep(s, Step(s, DislikeNow(a, b)), log, op);
  }

  lemma UnblockKeeps(s: State, log: seq<Slot>, a: int, b: int)
    requires Inv(s, log) && a != b && !Banning(s, a, b) && Safe(Step(s, UnblockNow(a, b)))
    ensures Inv(Step(s, UnblockNow(a, b)), log + [Done(R.Unblock(a, b))])
  {
    BansKeep(s, Step(s, UnblockNow(a, b)), log, R.Unblock(a, b));
  }

  lemma BlockShows(s: State, v: V.View, t: nat)
    requires Safe(s) && StillTrue(s) && ShowsRows(s, v) && t in s.open && s.open[t].stage == Deactivated
    ensures ShowsRows(CommitBlock(s, t), V.Apply(v, R.Block(s.open[t].actor, s.open[t].target)))
  {
    var tx, next := s.open[t], CommitBlock(s, t);
    var k := V.Key(tx.actor, tx.target);
    assert TxHolds(s, tx);
    forall id | id in s.chats
      ensures next.chats[id] == if V.KeyOf(s.chats[id]) == k then s.chats[id].(isActive := false) else s.chats[id]
    {
      V.SameKey(s.chats[id], tx.actor, tx.target);
      assert id in tx.dead ==> IsChat(s, id, tx.actor, tx.target);
      assert id in ActiveBetween(s, tx.actor, tx.target) ==> id in tx.dead;
    }
    V.CloseChats(s.chats, next.chats, v.chats, k);
  }

  lemma BlockStillTrue(s: State, t: nat)
    requires StillTrue(s) && t in s.open
    ensures StillTrue(CommitBlock(s, t))
  {
    var next := CommitBlock(s, t);
    forall u | u in next.open && next.open[u].stage == Deactivated
      ensures ActiveBetween(next, next.open[u].actor, next.open[u].target) <= next.open[u].dead
    {
      assert ActiveBetween(next, s.open[u].actor, s.open[u].target) <= ActiveBetween(s, s.open[u].actor, s.open[u].target);
    }
  }

  lemma BlockKeeps(s: State, log: seq<Slot>, t: nat)
    requires Inv(s, log) && t in s.open && s.open[t].stage == Deactivated
    requires Safe(CommitBlock(s, t)) && Exclusive(CommitBlock(s, t))
    ensures Inv(CommitBlock(s, t), log + [Done(R.Block(s.open[t].actor, s.open[t].target))])
  {
    var op := R.Block(s.open[t].actor, s.open[t].target);
    NotPlacedYet(s, log, t);
    InNobodysWay(s, log, t, Done(op));
    AppendFree(log, Done(op));
    DonePlaced(s, CommitBlock(s, t), log, op);
    DoneView(log, op);
    BlockShows(s, ViewOf(log), t);
    BlockStillTrue(s, t);
  }

  // ----- Likes -----

  lemma LikeShows(s: State, v: V.View, t: nat)
    requires Safe(s) && StillTrue(s) && ShowsRows(s, v) && t in s.open && s.open[t].stage in {Unmatched, ChatSeen}
    ensures ShowsRows(CommitLike(s, t), V.LikeEffect(v, s.open[t].actor, s.open[t].target))
  {
    var tx, next := s.open[t], CommitLike(s, t);
    assert TxHolds(s, tx);
    assert next.swipes == s.swipes + {(tx.actor, tx.target)};
    ChatIffShown(s, v.chats, tx.actor, tx.target);
    if tx.ownChat.Some? {
      V.AddChat(s.chats, v.chats, tx.ownChat.value, Chat(tx.actor, tx.target, true));
    }
  }

  lemma ChatIffShown(s: State, v: map<Pair, bool>, a: int, b: int)
    requires V.ShowsChats(s.chats, v)
    ensures V.Key(a, b) in v <==> HasChat(s, a, b)
  {
    V.ChatIffKey(s.chats, v, a, b);
    if id :| id in s.chats && IsBetween(s.chats[id], a, b) {
      assert IsChat(s, id, a, b);
    }
    if HasChat(s, a, b) {
      var id :| id in s.chats && IsChat(s, id, a, b);
    }
  }

  lemma LikeStillTrue(s: State, t: nat)
    requires Safe(s) && Exclusive(s) && StillTrue(s) && t in s.open && s.open[t].stage in {Unmatched, ChatSeen}
    ensures StillTrue(CommitLike(s, t))
  {
    var tx, next := s.open[t], CommitLike(s, t);
    forall u | u in next.open
      ensures next.open[u].stage == Unmatched ==> (next.open[u].target, next.open[u].actor) !in next.swipes
      ensures next.open[u].stage == Deactivated ==> ActiveBetween(next, next.open[u].actor, next.open[u].target) <= next.open[u].dead
    {
      assert !OnPair(tx, s.open[u].actor, s.open[u].target);
      if s.open[u].stage == Deactivated {
        assert ActiveBetween(next, s.open[u].actor, s.open[u].target) <= ActiveBetween(s, s.open[u].actor, s.open[u].target);
      }
    }
  }

  lemma SettlePlaced(s: State, next: State, log: seq<Slot>, t: nat, committed: bool)
    requires Placed(s, log) && next.open == s.open - {t}
    ensures Placed(next, Settle(log, t, committed))
  {
    var settled := Settle(log, t, committed);
    forall p | 0 <= p < |settled|
      ensures IsSlotOf(next, settled[p])
    {
      assert IsSlotOf(s, log[p]);
    }
    forall u | u in next.open && PassedCheck(next.open[u])
      ensures HasSlot(settled, u)
    {
      var p: nat :| OnlySlot(log, p, u);
      SettleOtherSlot(log, t, committed, p, u);
    }
  }

  lemma LikeKeeps(s: State, log: seq<Slot>, t: nat)
    requires Inv(s, log) && t in s.open && s.open[t].stage in {Unmatched, ChatSeen}
    requires Safe(CommitLike(s, t)) && Exclusive(CommitLike(s, t))
    ensures Inv(CommitLike(s, t), Settle(log, t, true))
  {
    assert HasSlot(log, t);
    var p: nat :| OnlySlot(log, p, t);
    assert IsSlotOf(s, log[p]) && IsFree(log, p);
    SettleEffect(log, p, t);
    SettleFree(log, p, t, true);
    SettlePlaced(s, CommitLike(s, t), log, t, true);
    LikeShows(s, ViewOf(log), t);
    LikeStillTrue(s, t);
  }

  lemma RollbackKeeps(s: State, log: seq<Slot>, t: nat)
    requires Inv(s, log) && Safe(Drop(s, t)) && Exclusive(Drop(s, t))
    ensures Inv(Drop(s, t), Settle(log, t, false))
  {
    if t in s.open && PassedCheck(s.open[t]) {
      assert HasSlot(log, t);
      var p: nat :| OnlySlot(log, p, t);
      SettleFree(log, p, t, false);
      DroppedView(log, p, t);
      SettlePlaced(s, Drop(s, t), log, t, false);
    } else {
      NotPlacedYet(s, log, t);
      SettleNothing(log, t, false);
      DropKeeps(s, log, t);
    }
  }

  // ----- Every run -----

  lemma CommitKeeps(s: State, log: seq<Slot>, t: nat)
    requires Inv(s, log) && Safe(Step(s, Commit(t))) && Exclusive(Step(s, Commit(t)))
    ensures Inv(Step(s, Commit(t)), LogStep(s, log, Commit(t)))
  {
    if t in s.open && s.open[t].stage in {Unmatched, ChatSeen} {
      LikeKeeps(s, log, t);
    } else if t in s.open && s.open[t].stage == Deactivated {
      BlockKeeps(s, log, t);
    }
  }

  lemma CheckStatementKeeps(s: State, log: seq<Slot>, t: nat)
    requires Inv(s, log) && Safe(Step(s, CheckExcluded(t))) && Exclusive(Step(s, CheckExcluded(t)))
    ensures Inv(Step(s, CheckExcluded(t)), LogStep(s, log, CheckExcluded(t)))
  {
    if PassesCheck(s, t) {
      CheckKeeps(s, log, t);
    } else if t in s.open && s.open[t].stage == Begun {
      DropKeeps(s, log, t);
    }
  }

  lemma StepKeeps(s: State, log: seq<Slot>, action: Action)
    requires Inv(s, log)
    requires action.BeginLike? || action.BeginBlock? ==> !PairOpen(s, action.actor, action.target)
    ensures Inv(Step(s, action), LogStep(s, log, action))
  {
    StepSafe(s, action);
    ExclusiveStep(s, action);
    match action
    case CheckExcluded(t) => CheckStatementKeeps(s, log, t);
    case Commit(t) => CommitKeeps(s, log, t);
    case Rollback(t) => RollbackKeeps(s, log, t);
    case DislikeNow(a, b) =>
      if a != b && !Banning(s, a, b) {
        DislikeKeeps(s, log, a, b);
      }
    case UnblockNow(a, b) =>
      if a != b && !Banning(s, a, b) {
        UnblockKeeps(s, log, a, b);
      }
    case _ => InnerKeeps(s, log, action);
  }

  lemma {:induction false} LockedRunKeeps(actions: seq<Action>)
    requires PairLocked(actions)
    ensures Inv(Run(actions), Log(actions))
  {
    if actions != [] {
      var front, last := actions[..|actions| - 1], actions[|actions| - 1];
      PairLockedFront(actions);
      LockedRunKeeps(front);
      StepKeeps(Run(front), Log(front), last);
    }
  }

  // ----- What was committed -----

  /** The operation a statement commits, if any. */
  function CommittedOp(s: State, action: Action): seq<R.Op> {
    match action
    case Commit(t) =>
      if t !in s.open then []
      else if s.open[t].stage in {Unmatched, ChatSeen} then [R.Like(s.open[t].actor, s.open[t].target)]
      else if s.open[t].stage == Deactivated then [R.Block(s.open[t].actor, s.open[t].target)]
      else []
    case DislikeNow(a, b) => if a == b || Banning(s, a, b) then [] else [R.Dislike(a, b)]
    case UnblockNow(a, b) => if a == b || Banning(s, a, b) then [] else [R.Unblock(a, b)]
    case _ => []
  }

  /** The committed operations in the order of their commits. */
  ghost function CommittedOps(actions: seq<Action>): seq<R.Op> {
    if actions == [] then []
    else CommittedOps(actions[..|actions| - 1]) + CommittedOp(Run(actions[..|actions| - 1]), actions[|actions| - 1])
  }

  lemma MiddleOne(before: seq<R.Op>, op: R.Op, after: seq<R.Op>)
    ensures multiset(before + [op] + after) == multiset(before + after) + multiset{op}
  {
  }

  lemma SettleOps(s: State, log: seq<Slot>, t: nat)
    requires Inv(s, log) && t in s.open && s.open[t].stage in {Unmatched, ChatSeen}
    ensures multiset(Ops(Settle(log, t, true))) == multiset(Ops(log)) + multiset{R.Like(s.open[t].actor, s.open[t].target)}
  {
    assert HasSlot(log, t);
    var p: nat :| OnlySlot(log, p, t);
    assert IsSlotOf(s, log[p]);
    PendingSplit(log, p);
    SettleSplit(log, p, t, true);
    MiddleOne(Ops(log[..p]), R.Like(s.open[t].actor, s.open[t].target), Ops(log[p + 1..]));
  }

  lemma DropOps(s: State, log: seq<Slot>, t: nat)
    requires Inv(s, log)
    ensures Ops(Settle(log, t, false)) == Ops(log)
  {
    if t in s.open && PassedCheck(s.open[t]) {
      assert HasSlot(log, t);
      var p: nat :| OnlySlot(log, p, t);
      DroppedView(log, p, t);
    } else {
      NotPlacedYet(s, log, t);
      SettleNothing(log, t, false);
    }
  }

  lemma CommitOps(s: State, log: seq<Slot>, t: nat)
    requires Inv(s, log)
    ensures multiset(Ops(LogStep(s, log, Commit(t)))) == multiset(Ops(log)) + multiset(CommittedOp(s, Commit(t)))
  {
    var after, ops := LogStep(s, log, Commit(t)), CommittedOp(s, Commit(t));
    if t in s.open && s.open[t].stage in {Unmatched, ChatSeen} {
      SettleOps(s, log, t);
      assert after == Settle(log, t, true) && ops == [R.Like(s.open[t].actor, s.open[t].target)];
    } else if t in s.open && s.open[t].stage == Deactivated {
      var slot := Done(R.Block(s.open[t].actor, s.open[t].target));
      AppendOps(log, slot);
      assert after == log + [slot] && ops == SlotOps(slot);
    } else {
      assert after == log && ops == [];
    }
  }

  lemma CheckOps(s: State, log: seq<Slot>, t: nat)
    ensures multiset(Ops(LogStep(s, log, CheckExcluded(t)))) == multiset(Ops(log))
  {
    if PassesCheck(s, t) {
      AppendOps(log, Pending(t, s.open[t].actor, s.open[t].target));
    }
  }

  lemma DislikeOps(s: State, log: seq<Slot>, a: int, b: int)
    ensures multiset(Ops(LogStep(s, log, DislikeNow(a, b)))) == multiset(Ops(log)) + multiset(CommittedOp(s, DislikeNow(a, b)))
  {
    if a == b || Banning(s, a, b) {
      assert LogStep(s, log, DislikeNow(a, b)) == log && CommittedOp(s, DislikeNow(a, b)) == [];
    } else {
      AppendOps(log, Done(R.Dislike(a, b)));
      assert LogStep(s, log, DislikeNow(a, b)) == log + [Done(R.Dislike(a, b))];
    }
  }

  lemma UnblockOps(s: State, log: seq<Slot>, a: int, b: int)
    ensures multiset(Ops(LogStep(s, log, UnblockNow(a, b)))) == multiset(Ops(log)) + multiset(CommittedOp(s, UnblockNow(a, b)))
  {
    if a == b || Banning(s, a, b) {
      assert LogStep(s, log, UnblockNow(a, b)) == log && CommittedOp(s, UnblockNow(a, b)) == [];
    } else {
      AppendOps(log, Done(R.Unblock(a, b)));
      assert LogStep(s, log, UnblockNow(a, b)) == log + [Done(R.Unblock(a, b))];
    }
  }

  lemma InnerOps(s: State, log: seq<Slot>, action: Action)
    requires IsInner(action)
    ensures LogStep(s, log, action) == log && CommittedOp(s, action) == []
  {
  }

  lemma LogStepOps(s: State, log: seq<Slot>, action: Action)
    requires Inv(s, log)
    ensures multiset(Ops(LogStep(s, log, action))) == multiset(Ops(log)) + multiset(CommittedOp(s, action))
  {
    if action.Commit? {
      CommitOps(s, log, action.t);
    } else if action.CheckExcluded? {
      CheckOps(s, log, action.t);
    } else if action.Rollback? {
      DropOps(s, log, action.t);
    } else if action.DislikeNow? {
      DislikeOps(s, log, action.actor, action.target);
    } else if action.UnblockNow? {
      UnblockOps(s, log, action.actor, action.target);
    } else {
      InnerOps(s, log, action);
    }
  }

  lemma PairLockedFront(actions: seq<Action>)
    requires PairLocked(actions) && actions != []
    ensures var front, last := actions[..|actions| - 1], actions[|actions| - 1];
            PairLocked(front) && (last.BeginLike? || last.BeginBlock? ==> !PairOpen(Run(front), last.actor, last.target))
  {
    var front := actions[..|actions| - 1];
    assert forall i :: 0 <= i < |front| ==> front[i] == actions[i] && front[..i] == actions[..i];
  }

  lemma CommittedStep(actions: seq<Action>)
    requires actions != [] && Inv(Run(actions[..|actions| - 1]), Log(actions[..|actions| - 1]))
    requires multiset(SerialOps(actions[..|actions| - 1])) == multiset(CommittedOps(actions[..|actions| - 1]))
    ensures multiset(SerialOps(actions)) == multiset(CommittedOps(actions))
  {
    var front, last := actions[..|actions| - 1], actions[|actions| - 1];
    LogStepOps(Run(front), Log(front), last);
    assert CommittedOps(actions) == CommittedOps(front) + CommittedOp(Run(front), last);
  }

  /** The serial order is an order of the committed transactions, each as often as it was committed. */
  lemma {:induction false} SerialOrderOfCommitted(actions: seq<Action>)
    requires PairLocked(actions)
    ensures multiset(SerialOps(actions)) == multiset(CommittedOps(actions))
  {
    if actions != [] {
      PairLockedFront(actions);
      SerialOrderOfCommitted(actions[..|actions| - 1]);
      LockedRunKeeps(actions[..|actions| - 1]);
      CommittedStep(actions);
    }
  }

  // ----- The serial run -----

  predicate HasUsers(action: Action) {
    action.BeginLike? || action.BeginBlock? || action.DislikeNow? || action.UnblockNow?
  }

  function People(actions: seq<Action>): set<int> {
    if actions == [] then {}
    else
      var last := actions[|actions| - 1];
      People(actions[..|actions| - 1]) + (if HasUsers(last) then {last.actor, last.target} else {})
  }

  function ActiveProfile(user: int): Profile {
    Profile(user, user, true, Date(2000, 1, 1), 1, None, None, None, "", "")
  }

  /** The tables at the start, with these people registered. */
  function Registered(people: set<int>): Tables {
    EMPTY.(users := map u | u in people :: false, profiles := map u | u in people :: ActiveProfile(u))
  }

  lemma RegisteredKnows(people: set<int>, a: int, b: int)
    requires a in people && b in people && a != b
    ensures V.Known(Registered(people), a, b)
  {
    var db := Registered(people);
    assert db.profiles[a].userId == a && db.profiles[b].userId == b;
  }

  lemma RegisteredStart(people: set<int>)
    ensures R.Inv(Registered(people)) && V.Shows(Registered(people), V.BLANK)
  {
    assert forall a, b :: !S.HasChat(Registered(people), a, b);
  }

  ghost predicate OpenAmong(s: State, people: set<int>) {
    forall t :: t in s.open ==> s.open[t].actor != s.open[t].target && s.open[t].actor in people && s.open[t].target in people
  }

  predicate IsAmong(op: R.Op, people: set<int>) {
    V.IsPairOp(op) && op.actor != op.target && op.actor in people && op.target in people
  }

  lemma StepAmong(s: State, action: Action, people: set<int>)
    requires OpenAmong(s, people) && (HasUsers(action) ==> action.actor in people && action.target in people)
    ensures OpenAmong(Step(s, action), people)
    ensures forall op :: op in CommittedOp(s, action) ==> IsAmong(op, people)
  {
    if !action.BeginLike? && !action.BeginBlock? {
      StepKeepsPairs(s, action);
    }
  }

  lemma {:induction false} CommittedAmong(actions: seq<Action>, people: set<int>)
    requires People(actions) <= people
    ensures OpenAmong(Run(actions), people)
    ensures forall op :: op in CommittedOps(actions) ==> IsAmong(op, people)
  {
    if actions != [] {
      CommittedAmong(actions[..|actions| - 1], people);
      StepAmong(Run(actions[..|actions| - 1]), actions[|actions| - 1], people);
    }
  }

  ghost predicate HasLike(chats: map<int, Chat>, chat: Chat) {
    exists j :: j in chats && IsBetween(chats[j], chat.user1, chat.user2) && chats[j].isActive == chat.isActive
  }

  /** The same swipes, the same exclusions, and chats between the same pairs, as active. */
  ghost predicate SameUpToChatIds(s: State, db: Tables) {
    && s.swipes == db.swipes && s.bans == db.exclusions
    && (forall i :: i in s.chats ==> HasLike(db.chats, s.chats[i]))
    && (forall j :: j in db.chats ==> HasLike(s.chats, db.chats[j]))
  }

  lemma ShownTwice(first: map<int, Chat>, second: map<int, Chat>, v: map<Pair, bool>, i: int)
    requires V.ShowsChats(first, v) && V.ShowsChats(second, v) && i in first
    ensures HasLike(second, first[i])
  {
    var k := V.KeyOf(first[i]);
    assert V.HasKey(second, k);
    var j :| j in second && V.KeyOf(second[j]) == k;
    V.SameKey(second[j], first[i].user1, first[i].user2);
  }

  /** The serial run of the committed operations, everyone being registered. */
  ghost function SerialRun(actions: seq<Action>): Tables {
    R.Run(Registered(People(actions)), SerialOps(actions))
  }

  /** Serializability: if no transaction begins on a pair that has one open, then whatever else
      interleaves, the committed rows are those of a serial run of the committed transactions. */
  lemma PairLockedIsSerial(actions: seq<Action>)
    requires PairLocked(actions)
    ensures multiset(SerialOps(actions)) == multiset(CommittedOps(actions))
    ensures SameUpToChatIds(Run(actions), SerialRun(actions)) && R.Inv(SerialRun(actions))
  {
    var people, ops := People(actions), SerialOps(actions);
    SerialOrderOfCommitted(actions);
    CommittedAmong(actions, people);
    forall i | 0 <= i < |ops|
      ensures V.IsPairOp(ops[i]) && V.Known(Registered(people), ops[i].actor, ops[i].target)
    {
      assert ops[i] in multiset(CommittedOps(actions));
      assert IsAmong(ops[i], people);
      RegisteredKnows(people, ops[i].actor, ops[i].target);
    }
    RegisteredStart(people);
    V.RunShows(Registered(people), V.BLANK, ops);
    LockedRunKeeps(actions);
    SameViews(Run(actions), SerialRun(actions), V.Run(V.BLANK, ops));
  }

  lemma SameViews(s: State, db: Tables, v: V.View)
    requires ShowsRows(s, v) && V.Shows(db, v)
    ensures SameUpToChatIds(s, db)
  {
    forall i | i in s.chats ensures HasLike(db.chats, s.chats[i]) {
      ShownTwice(s.chats, db.chats, v.chats, i);
    }
    forall j | j in db.chats ensures HasLike(s.chats, db.chats[j]) {
      ShownTwice(db.chats, s.chats, v.chats, j);
    }
  }

  lemma LikeBetween(chats: map<int, Chat>, chat: Chat, a: int, b: int)
    requires HasLike(chats, chat) && IsBetween(chat, a, b)
    ensures exists j :: j in chats && IsBetween(chats[j], a, b)
  {
    var j :| j in chats && IsBetween(chats[j], chat.user1, chat.user2);
    assert IsBetween(chats[j], a, b);
  }

  lemma SameChatPairs(s: State, db: Tables, a: int, b: int)
    requires SameUpToChatIds(s, db)
    ensures HasChat(s, a, b) <==> S.HasChat(db, a, b)
  {
    if HasChat(s, a, b) {
      var i :| i in s.chats && IsChat(s, i, a, b);
      LikeBetween(db.chats, s.chats[i], a, b);
      var j :| j in db.chats && IsBetween(db.chats[j], a, b);
      assert S.IsChatOf(db, j, a, b);
    }
    if S.HasChat(db, a, b) {
      var j :| j in db.chats && S.IsChatOf(db, j, a, b);
      LikeBetween(s.chats, db.chats[j], a, b);
      var i :| i in s.chats && IsBetween(s.chats[i], a, b);
      assert IsChat(s, i, a, b);
    }
  }

  lemma NoBanOverActive(s: State, db: Tables, id: int)
    requires SameUpToChatIds(s, db) && R.NoActiveUnderBan(db) && id in s.chats && s.chats[id].isActive
    ensures !BannedEitherWay(s, s.chats[id].user1, s.chats[id].user2)
  {
    var chat := s.chats[id];
    assert HasLike(db.chats, chat);
    var j :| j in db.chats && IsBetween(db.chats[j], chat.user1, chat.user2) && db.chats[j].isActive;
    NoBanBetween(db, j, chat.user1, chat.user2);
    SameBans(s, db, chat.user1, chat.user2);
  }

  lemma NoBanBetween(db: Tables, j: int, a: int, b: int)
    requires R.NoActiveUnderBan(db) && j in db.chats && db.chats[j].isActive && IsBetween(db.chats[j], a, b)
    ensures !S.IsBanned(db, a, b) && !S.IsBanned(db, b, a)
  {
    assert !S.IsBanned(db, db.chats[j].user1, db.chats[j].user2) && !S.IsBanned(db, db.chats[j].user2, db.chats[j].user1);
  }

  lemma SameBans(s: State, db: Tables, a: int, b: int)
    requires s.bans == db.exclusions
    ensures BannedEitherWay(s, a, b) <==> S.IsBanned(db, a, b) || S.IsBanned(db, b, a)
  {
  }

  lemma ChatIffBothLikes(s: State, db: Tables, a: int, b: int)
    requires SameUpToChatIds(s, db) && R.ChatIffMutual(db)
    ensures HasChat(s, a, b) <==> (a, b) in s.swipes && (b, a) in s.swipes
  {
    SameChatPairs(s, db, a, b);
    assert S.HasChat(db, a, b) <==> R.MutualLike(db, a, b);
  }

  /** So both laws of the serial runs hold again: a pair shares a chat exactly when both likes
      are committed, and no ban stands over an active chat. */
  lemma PairLockRestoresLaws(actions: seq<Action>)
    requires PairLocked(actions)
    ensures var s := Run(actions);
            && (forall a, b :: HasChat(s, a, b) <==> (a, b) in s.swipes && (b, a) in s.swipes)
            && (forall id :: id in s.chats && s.chats[id].isActive ==>
                  !BannedEitherWay(s, s.chats[id].user1, s.chats[id].user2))
  {
    var s, db := Run(actions), SerialRun(actions);
    PairLockedIsSerial(actions);
    forall a, b
      ensures HasChat(s, a, b) <==> (a, b) in s.swipes && (b, a) in s.swipes
    {
      ChatIffBothLikes(s, db, a, b);
    }
    forall id | id in s.chats && s.chats[id].isActive
      ensures !BannedEitherWay(s, s.chats[id].user1, s.chats[id].user2)
    {
      NoBanOverActive(s, db, id);
    }
  }
}
