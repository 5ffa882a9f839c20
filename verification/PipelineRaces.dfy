/** The same pipeline over interleaved transactions: calls are answered when their
    transactions commit, and what a stored match row says holds under every interleaving. */
module PipelineRaces {
  import opened Common
  import T = ReadCommitted
  import R = RibbonRuns
  import opened RibbonService
  import D = Delivery
  import Z = ReadCommittedSerializable

  datatype World = World(rows: T.State, delivery: D.World)

  /** A statement of some transaction, with the time a call it completes reports, or any step
      of the delivery. */
  datatype Move =
    | Statement(action: T.Action, at: string)
    | Deliver(step: D.Move)

  function Fresh(bufferSize: nat, workers: nat): World {
    World(T.START, D.Fresh(bufferSize, workers))
  }

  /** The service call a statement completes: a commit, or a dislike that need not wait. */
  function Completed(s: T.State, action: T.Action): Option<(R.Op, R.Reply)> {
    match action
    case Commit(t) =>
      if t !in s.open then None
      else if s.open[t].stage in {T.Unmatched, T.ChatSeen} then
        Some((R.Like(s.open[t].actor, s.open[t].target), R.Liked(s.open[t].seen)))
      else if s.open[t].stage == T.Deactivated then Some((R.Block(s.open[t].actor, s.open[t].target), R.Done))
      else None
    case DislikeNow(a, b) => if a == b || T.Banning(s, a, b) then None else Some((R.Dislike(a, b), R.Done))
    case _ => None
  }

  /** A statement completes a call exactly when it commits a like, a dislike or a block; that
      operation is the call's, and a like is answered with the chat its transaction has read. */
  lemma CompletedIsCommitted(s: T.State, action: T.Action)
    ensures Completed(s, action).Some? ==> Z.CommittedOp(s, action) == [Completed(s, action).value.0]
    ensures forall op :: op in Z.CommittedOp(s, action) && !op.Unblock? ==> Completed(s, action).Some?
    ensures Completed(s, action).Some? && action.Commit? ==>
              Completed(s, action).value.1 == if s.open[action.t].stage == T.Deactivated then R.Done
                                              else R.Liked(s.open[action.t].seen)
  {
  }

  ghost function StatementStep(w: World, action: T.Action, at: string): World {
    var call := Completed(w.rows, action);
    World(T.Step(w.rows, action),
          if call.Some? then D.Step(w.delivery, D.Answer(call.value.0, call.value.1, at)) else w.delivery)
  }

  ghost function Step(w: World, move: Move): World {
    match move
    case Statement(action, at) => StatementStep(w, action, at)
    case Deliver(step) => if step.Answer? then w else w.(delivery := D.Step(w.delivery, step))
  }

  ghost function Run(w: World, moves: seq<Move>): World {
    if moves == [] then w else Step(Run(w, moves[..|moves| - 1]), moves[|moves| - 1])
  }

  // ----- What holds throughout -----

  /** A like that was answered has left its traces in the committed rows. */
  ghost predicate Holds(s: T.State, op: R.Op, reply: R.Reply) {
    op.Like? && reply.Liked? ==>
      && (op.actor, op.target) in s.swipes
      && (reply.chat.Some? ==> (op.target, op.actor) in s.swipes && T.IsChat(s, reply.chat.value, op.actor, op.target))
  }

  ghost predicate CallsHold(s: T.State, calls: seq<D.Call>) {
    forall c :: 0 <= c < |calls| ==> Holds(s, calls[c].op, calls[c].reply)
  }

  ghost predicate Inv(w: World) {
    T.Safe(w.rows) && CallsHold(w.rows, w.delivery.calls) && D.Inv(w.delivery)
  }

  lemma CompletedHolds(s: T.State, action: T.Action)
    requires T.Safe(s) && Completed(s, action).Some?
    ensures Holds(T.Step(s, action), Completed(s, action).value.0, Completed(s, action).value.1)
  {
    T.StepSafe(s, action);
    if action.Commit? && s.open[action.t].stage in {T.Unmatched, T.ChatSeen} {
      LikeHolds(s, action.t);
    }
  }

  lemma LikeHolds(s: T.State, t: nat)
    requires T.Safe(s) && t in s.open && s.open[t].stage in {T.Unmatched, T.ChatSeen}
    requires T.Safe(T.CommitLike(s, t))
    ensures Holds(T.CommitLike(s, t), R.Like(s.open[t].actor, s.open[t].target), R.Liked(s.open[t].seen))
  {
    var tx, next := s.open[t], T.CommitLike(s, t);
    assert T.TxHolds(s, tx);
    if tx.seen.Some? {
      assert (tx.actor, tx.target, tx.seen.value) in next.replies;
      assert T.IsChat(next, tx.seen.value, tx.actor, tx.target);
    }
  }

  lemma HoldsLater(s: T.State, next: T.State, op: R.Op, reply: R.Reply)
    requires T.Grows(s, next) && Holds(s, op, reply)
    ensures Holds(next, op, reply)
  {
  }

  lemma StatementKeeps(w: World, action: T.Action, at: string)
    requires Inv(w)
    ensures Inv(StatementStep(w, action, at))
  {
    var next := StatementStep(w, action, at);
    T.StepSafe(w.rows, action);
    forall c | 0 <= c < |w.delivery.calls|
      ensures Holds(next.rows, w.delivery.calls[c].op, w.delivery.calls[c].reply)
    {
      HoldsLater(w.rows, next.rows, w.delivery.calls[c].op, w.delivery.calls[c].reply);
    }
    var call := Completed(w.rows, action);
    if call.Some? {
      CompletedHolds(w.rows, action);
      D.StepKeeps(w.delivery, D.Answer(call.value.0, call.value.1, at));
    }
  }

  lemma DeliverKeeps(w: World, step: D.Move)
    requires Inv(w) && !step.Answer?
    ensures Inv(w.(delivery := D.Step(w.delivery, step)))
  {
    D.StepKeeps(w.delivery, step);
    D.StepKeepsCalls(w.delivery, step);
  }

  lemma StepKeeps(w: World, move: Move)
    requires Inv(w)
    ensures Inv(Step(w, move))
  {
    match move
    case Statement(action, at) => StatementKeeps(w, action, at);
    case Deliver(step) =>
      if !step.Answer? {
        DeliverKeeps(w, step);
      }
  }

  lemma {:induction false} RunKeeps(w: World, moves: seq<Move>)
    requires Inv(w)
    ensures Inv(Run(w, moves))
  {
    if moves != [] {
      RunKeeps(w, moves[..|moves| - 1]);
      StepKeeps(Run(w, moves[..|moves| - 1]), moves[|moves| - 1]);
    }
  }

  lemma FreshInv(bufferSize: nat, workers: nat)
    ensures Inv(Fresh(bufferSize, workers))
  {
    D.FreshInv(bufferSize, workers);
  }

  /** The row names, by its own fields, a committed chat between its two users, who have
      both committed likes of each other. */
  ghost predicate NamesMutualChat(s: T.State, row: D.Row) {
    exists u, t, chat :: D.IsMatchRow(row, u, t, chat)
                         && (u, t) in s.swipes && (t, u) in s.swipes && T.IsChat(s, chat, u, t)
  }

  lemma MatchEventNamesChat(s: T.State, op: R.Op, reply: R.Reply, at: string, part: nat)
    requires part < |EventsOf(op, reply, at)| && Holds(s, op, reply)
    ensures var row := D.RowOf(EventsOf(op, reply, at)[part]);
            row.kind == Text(MATCH) ==> NamesMutualChat(s, row)
  {
    assert SWIPE[0] != MATCH[0] && BLOCK[0] != MATCH[0];
    var row := D.RowOf(EventsOf(op, reply, at)[part]);
    if row.kind == Text(MATCH) {
      assert op.Like? && reply.Liked? && reply.chat.Some?;
      assert D.IsMatchRow(row, op.actor, op.target, reply.chat.value);
    }
  }

  /** However transactions, workers, the consumer and restarts interleave: every stored row is
      one event of one completed call, and every stored match row names a committed chat
      between its users with likes both ways. */
  lemma StoredMatchesAreMutual(bufferSize: nat, workers: nat, moves: seq<Move>, k: nat)
    requires k < |Run(Fresh(bufferSize, workers), moves).delivery.consumer.rows|
    ensures var w := Run(Fresh(bufferSize, workers), moves);
            && Inv(w)
            && D.IsPublishedOnce(w.delivery, D.StoredTicket(w.delivery, k))
            && var row := D.RowOf(D.StoredTicket(w.delivery, k).event);
               row.kind == Text(MATCH) ==> NamesMutualChat(w.rows, row)
  {
    FreshInv(bufferSize, workers);
    RunKeeps(Fresh(bufferSize, workers), moves);
    var w := Run(Fresh(bufferSize, workers), moves);
    D.RowIsOneEvent(w.delivery, k);
    D.EventOfCall(w.delivery, k);
    var t := D.StoredTicket(w.delivery, k);
    var call := w.delivery.calls[t.call];
    MatchEventNamesChat(w.rows, call.op, call.reply, call.at, t.part);
  }
}
