/** From a service call to a ClickHouse row: the tables and the delivery of events together,
    transactions one at a time. */
module Pipeline {
  import opened Schema
  import opened RibbonStore
  import R = RibbonRuns
  import opened RibbonService
  import D = Delivery

  datatype World = World(db: Tables, delivery: D.World)

  /** Serve runs a service call past validation; Deliver is any step of the delivery. */
  datatype Move =
    | Serve(op: R.Op, at: string)
    | Deliver(step: D.Move)

  function Fresh(bufferSize: nat, workers: nat): World {
    World(EMPTY, D.Fresh(bufferSize, workers))
  }

  ghost function ServeStep(w: World, op: R.Op, at: string): World {
    var (after, reply) := R.Apply(w.db, op);
    World(after, D.Step(w.delivery, D.Answer(op, reply, at)))
  }

  ghost function Step(w: World, move: Move): World {
    match move
    case Serve(op, at) => if IsValid(op) then ServeStep(w, op, at) else w
    case Deliver(step) => if step.Answer? then w else w.(delivery := D.Step(w.delivery, step))
  }

  ghost function Run(w: World, moves: seq<Move>): World {
    if moves == [] then w else Step(Run(w, moves[..|moves| - 1]), moves[|moves| - 1])
  }

  // ----- What holds throughout -----

  function Ops(calls: seq<D.Call>): seq<R.Op> {
    seq(|calls|, i requires 0 <= i < |calls| => calls[i].op)
  }

  /** The calls are a serial run of transactions, and each was answered as that run answers. */
  ghost predicate Served(db: Tables, calls: seq<D.Call>) {
    && db == R.Run(EMPTY, Ops(calls))
    && forall c :: 0 <= c < |calls| ==> calls[c].reply == R.ReplyAt(EMPTY, Ops(calls), c)
  }

  /** A like that was answered has left its traces in the tables. */
  ghost predicate Holds(db: Tables, op: R.Op, reply: R.Reply) {
    op.Like? && reply.Liked? ==>
      && (op.actor, op.target) in db.swipes
      && (reply.chat.Some? ==> R.MutualLike(db, op.actor, op.target) && IsChatOf(db, reply.chat.value, op.actor, op.target))
  }

  ghost predicate CallsHold(db: Tables, calls: seq<D.Call>) {
    forall c :: 0 <= c < |calls| ==> Holds(db, calls[c].op, calls[c].reply)
  }

  ghost predicate Inv(w: World) {
    && Served(w.db, w.delivery.calls) && R.Inv(w.db)
    && CallsHold(w.db, w.delivery.calls) && D.Inv(w.delivery)
  }

  lemma FreshInv(bufferSize: nat, workers: nat)
    ensures Inv(Fresh(bufferSize, workers))
  {
    D.FreshInv(bufferSize, workers);
    R.EmptyInv();
    assert Ops([]) == [];
  }

  lemma ServeServed(db: Tables, calls: seq<D.Call>, call: D.Call)
    requires Served(db, calls) && call.reply == R.Apply(db, call.op).1
    ensures Served(R.Apply(db, call.op).0, calls + [call])
  {
    var all := calls + [call];
    assert Ops(all) == Ops(calls) + [call.op];
    R.RunSnoc(EMPTY, Ops(calls), call.op);
    forall c | 0 <= c < |all|
      ensures all[c].reply == R.ReplyAt(EMPTY, Ops(all), c)
    {
      assert Ops(all)[..c] == Ops(calls)[..c];
      if c == |calls| {
        assert Ops(calls)[..c] == Ops(calls);
      }
    }
  }

  lemma SameCallsServed(db: Tables, before: seq<D.Call>, after: seq<D.Call>)
    requires Served(db, before) && D.SameCalls(before, after) && |after| == |before|
    ensures Served(db, after)
  {
    assert Ops(after) == Ops(before);
  }

  lemma HoldsLater(before: Tables, after: Tables, op: R.Op, reply: R.Reply)
    requires R.Extends(before, after) && Holds(before, op, reply)
    ensures Holds(after, op, reply)
  {
  }

  lemma HoldsAtOnce(db: Tables, op: R.Op)
    ensures Holds(R.Apply(db, op).0, op, R.Apply(db, op).1)
  {
  }

  lemma ServeHolds(db: Tables, calls: seq<D.Call>, call: D.Call)
    requires R.Inv(db) && CallsHold(db, calls) && call.reply == R.Apply(db, call.op).1
    ensures CallsHold(R.Apply(db, call.op).0, calls + [call])
  {
    var after := R.Apply(db, call.op).0;
    R.ApplyExtends(db, call.op);
    HoldsAtOnce(db, call.op);
    forall c | 0 <= c < |calls|
      ensures Holds(after, calls[c].op, calls[c].reply)
    {
      HoldsLater(db, after, calls[c].op, calls[c].reply);
    }
  }

  lemma ServeKeeps(w: World, op: R.Op, at: string)
    requires Inv(w)
    ensures Inv(ServeStep(w, op, at))
  {
    var call := D.Call(op, R.Apply(w.db, op).1, at, 0, true);
    D.StepKeeps(w.delivery, D.Answer(op, call.reply, at));
    R.ApplyKeeps(w.db, op);
    ServeServed(w.db, w.delivery.calls, call);
    ServeHolds(w.db, w.delivery.calls, call);
  }

  lemma DeliverKeeps(w: World, step: D.Move)
    requires Inv(w) && !step.Answer?
    ensures Inv(w.(delivery := D.Step(w.delivery, step)))
  {
    D.StepKeeps(w.delivery, step);
    D.StepKeepsCalls(w.delivery, step);
    SameCallsServed(w.db, w.delivery.calls, D.Step(w.delivery, step).calls);
  }

  lemma StepKeeps(w: World, move: Move)
    requires Inv(w)
    ensures Inv(Step(w, move))
  {
    match move
    case Serve(op, at) =>
      if IsValid(op) {
        ServeKeeps(w, op, at);
      }
    case Deliver(step) =>
      if !step.Answer? {
        DeliverKeeps(w, step);
      }
  }

  lemma {:induction false} RunKeeps(w: World, moves: seq<Move>)
    requires Inv(w)
    ensures Inv(Run(w, moves))
  {
    if moves != [] {
      RunKeeps(w, moves[..|moves| - 1]);
      StepKeeps(Run(w, moves[..|moves| - 1]), moves[|moves| - 1]);
    }
  }

  /** Every stored row comes from exactly one Publish call, made for one event of a service
      call that the serial run answered; no event of a call is stored twice. */
  lemma EveryRowIsOneEvent(bufferSize: nat, workers: nat, moves: seq<Move>, k: nat)
    requires k < |Run(Fresh(bufferSize, workers), moves).delivery.consumer.rows|
    ensures var w := Run(Fresh(bufferSize, workers), moves);
            && Inv(w)
            && var t := D.StoredTicket(w.delivery, k);
               && D.IsPublishedOnce(w.delivery, t)
               && w.delivery.calls[t.call].reply == R.ReplyAt(EMPTY, Ops(w.delivery.calls), t.call)
               && forall j :: 0 <= j < |w.delivery.consumer.rows| && j != k ==>
                    (D.StoredTicket(w.delivery, j).call, D.StoredTicket(w.delivery, j).part) != (t.call, t.part)
  {
    FreshInv(bufferSize, workers);
    RunKeeps(Fresh(bufferSize, workers), moves);
    D.RowIsOneEvent(Run(Fresh(bufferSize, workers), moves).delivery, k);
  }

  lemma {:induction false} RunSkipsNone(bufferSize: nat, workers: nat, moves: seq<Move>)
    ensures D.NoneSkipped(Run(Fresh(bufferSize, workers), moves).delivery)
  {
    if moves != [] {
      var before, last := Run(Fresh(bufferSize, workers), moves[..|moves| - 1]), moves[|moves| - 1];
      RunSkipsNone(bufferSize, workers, moves[..|moves| - 1]);
      match last
      case Serve(op, at) => D.StepSkipsNone(before.delivery, D.Answer(op, R.Apply(before.db, op).1, at));
      case Deliver(step) => D.StepSkipsNone(before.delivery, step);
    }
  }

  /** The events of a call are published one after the other: when a call has made n Publish calls,
      each of its first n events has been published exactly once, and no other. */
  lemma CallsPublishInOrder(bufferSize: nat, workers: nat, moves: seq<Move>, c: nat, part: nat)
    requires c < |Run(Fresh(bufferSize, workers), moves).delivery.calls|
    requires part < |D.CallEvents(Run(Fresh(bufferSize, workers), moves).delivery.calls[c])|
    ensures var d := Run(Fresh(bufferSize, workers), moves).delivery;
            var t := D.Ticket(c, part, EventsOf(d.calls[c].op, d.calls[c].reply, d.calls[c].at)[part]);
            multiset(D.AllPublished(d))[t] == if part < d.calls[c].published then 1 else 0
  {
    FreshInv(bufferSize, workers);
    RunKeeps(Fresh(bufferSize, workers), moves);
    RunSkipsNone(bufferSize, workers, moves);
    var d := Run(Fresh(bufferSize, workers), moves).delivery;
    var t := D.Ticket(c, part, D.CallEvents(d.calls[c])[part]);
    if part < d.calls[c].published {
      assert D.PartIsPublished(d, c, part);
      D.PublishedIsOnce(d, t);
    } else if t in D.AllPublished(d) {
      D.PublishedIsOnce(d, t);
    }
  }

  /** The row names, by its own fields, a chat between its two users, who have liked each other. */
  ghost predicate NamesMutualChat(db: Tables, row: D.Row) {
    exists u, t, chat :: D.IsMatchRow(row, u, t, chat) && R.MutualLike(db, u, t) && IsChatOf(db, chat, u, t)
  }

  lemma MatchEventNamesChat(db: Tables, op: R.Op, reply: R.Reply, at: string, part: nat)
    requires part < |EventsOf(op, reply, at)| && Holds(db, op, reply)
    ensures var row := D.RowOf(EventsOf(op, reply, at)[part]);
            row.kind == Text(MATCH) ==> NamesMutualChat(db, row)
  {
    assert SWIPE[0] != MATCH[0] && BLOCK[0] != MATCH[0];
    var row := D.RowOf(EventsOf(op, reply, at)[part]);
    if row.kind == Text(MATCH) {
      assert op.Like? && reply.Liked? && reply.chat.Some?;
      assert D.IsMatchRow(row, op.actor, op.target, reply.chat.value);
    }
  }

  /** Every stored match row names a chat between its users with likes both ways. */
  lemma StoredMatchesAreMutual(bufferSize: nat, workers: nat, moves: seq<Move>, k: nat)
    requires k < |Run(Fresh(bufferSize, workers), moves).delivery.consumer.rows|
    ensures var w := Run(Fresh(bufferSize, workers), moves);
            && Inv(w)
            && var row := D.RowOf(D.StoredTicket(w.delivery, k).event);
               row.kind == Text(MATCH) ==> NamesMutualChat(w.db, row)
  {
    FreshInv(bufferSize, workers);
    RunKeeps(Fresh(bufferSize, workers), moves);
    var w := Run(Fresh(bufferSize, workers), moves);
    D.EventOfCall(w.delivery, k);
    var t := D.StoredTicket(w.delivery, k);
    var call := w.delivery.calls[t.call];
    MatchEventNamesChat(w.db, call.op, call.reply, call.at, t.part);
  }

  /** Every published event is somewhere: at the publisher that took it, or in the stream. */
  lemma EveryEventIsAccountedFor(bufferSize: nat, workers: nat, moves: seq<Move>, t: D.Ticket)
    requires t in D.AllPublished(Run(Fresh(bufferSize, workers), moves).delivery)
    ensures var d := Run(Fresh(bufferSize, workers), moves).delivery;
            D.StoppedBefore(d.past, t) || D.StoppedAt(d.publisher, t) || D.IsInStream(d, t)
  {
    FreshInv(bufferSize, workers);
    RunKeeps(Fresh(bufferSize, workers), moves);
    D.EventIsAccountedFor(Run(Fresh(bufferSize, workers), moves).delivery, t);
  }
}
