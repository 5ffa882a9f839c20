/** From answered service calls to ClickHouse rows: publishers, the stream and the consumer
    together. Everything interleaves, and either process may end and start again. */
module Delivery {
  import opened Common
  import opened RibbonService
  import R = RibbonRuns
  import P = Publisher
  import C = Consumer

  /** An event with the service call it comes from and its place among that call's events. */
  datatype Ticket = Ticket(call: nat, part: nat, event: Event)

  /** A service call past validation, with the number of its events published so far;
      alive tells whether the process that serves it still runs. */
  datatype Call = Call(op: R.Op, reply: R.Reply, at: string, published: nat, alive: bool)

  /** past holds the publishers of processes that ended, as they were left. */
  datatype World = World(
    calls: seq<Call>, past: seq<P.State<Ticket>>, publisher: P.State<Ticket>, consumer: C.State<Ticket>)

  /** Answer: a service call has come back from the database. Publish hands the next event of
      a call to the queue, or to worker w when one is waiting. Work is a step of the publisher
      other than Publish, Consume one of the consumer other than the arrival of entries, which
      come from the publisher. Restart ends the Go process at any moment and starts another. */
  datatype Move =
    | Answer(op: R.Op, reply: R.Reply, at: string)
    | Publish(call: nat, waiting: Option<nat>)
    | Work(work: P.Action<Ticket>)
    | Consume(step: C.Action<Ticket>)
    | Restart(bufferSize: nat, workers: nat)

  function Fresh(bufferSize: nat, workers: nat): World {
    World([], [], P.Fresh(bufferSize, workers), C.Empty())
  }

  function PublishedBy(publishers: seq<P.State<Ticket>>): seq<Ticket> {
    if publishers == [] then []
    else PublishedBy(publishers[..|publishers| - 1]) + publishers[|publishers| - 1].published
  }

  function SentBy(publishers: seq<P.State<Ticket>>): seq<Ticket> {
    if publishers == [] then [] else SentBy(publishers[..|publishers| - 1]) + publishers[|publishers| - 1].sent
  }

  /** Every Publish call of every process so far. */
  function AllPublished(w: World): seq<Ticket> {
    PublishedBy(w.past) + w.publisher.published
  }

  function AllSent(w: World): seq<Ticket> {
    SentBy(w.past) + w.publisher.sent
  }

  function CallEvents(call: Call): seq<Event> {
    EventsOf(call.op, call.reply, call.at)
  }

  function NextTicket(w: World, c: nat): Ticket
    requires c < |w.calls| && w.calls[c].published < |CallEvents(w.calls[c])|
  {
    Ticket(c, w.calls[c].published, CallEvents(w.calls[c])[w.calls[c].published])
  }

  predicate CanPublish(w: World, c: nat, waiting: Option<nat>) {
    && c < |w.calls| && w.calls[c].alive && w.calls[c].published < |CallEvents(w.calls[c])|
    && !w.publisher.closed
    && (waiting.Some? ==> w.publisher.queue == [] && P.IsIdle(w.publisher, waiting.value))
  }

  function PublishStep(w: World, c: nat, waiting: Option<nat>): World
    requires CanPublish(w, c, waiting)
  {
    var t := NextTicket(w, c);
    var action := match waiting { case None => P.Publish(t) case Some(worker) => P.HandOff(t, worker) };
    w.(publisher := P.Step(w.publisher, action),
       calls := w.calls[c := w.calls[c].(published := w.calls[c].published + 1)])
  }

  function AnswerStep(w: World, op: R.Op, reply: R.Reply, at: string): World {
    w.(calls := w.calls + [Call(op, reply, at, 0, true)])
  }

  function WorkStep(w: World, work: P.Action<Ticket>): World {
    var after := P.Step(w.publisher, work);
    w.(publisher := after, consumer := w.consumer.(stream := SentBy(w.past) + after.sent))
  }

  function Ended(calls: seq<Call>): seq<Call> {
    seq(|calls|, i requires 0 <= i < |calls| => calls[i].(alive := false))
  }

  function RestartStep(w: World, bufferSize: nat, workers: nat): World {
    w.(calls := Ended(w.calls), past := w.past + [w.publisher], publisher := P.Fresh(bufferSize, workers))
  }

  function Step(w: World, move: Move): World {
    match move
    case Answer(op, reply, at) => AnswerStep(w, op, reply, at)
    case Publish(c, waiting) => if CanPublish(w, c, waiting) then PublishStep(w, c, waiting) else w
    case Work(work) => if work.Publish? || work.HandOff? then w else WorkStep(w, work)
    case Consume(step) => if step.Append? then w else w.(consumer := C.Step(w.consumer, step))
    case Restart(bufferSize, workers) => RestartStep(w, bufferSize, workers)
  }

  // ----- What holds throughout -----

  /** The ticket names an event already published of a call already made. */
  ghost predicate IsIssued(calls: seq<Call>, t: Ticket) {
    && t.call < |calls| && t.part < calls[t.call].published
    && t.part < |CallEvents(calls[t.call])| && t.event == CallEvents(calls[t.call])[t.part]
  }

  ghost predicate Distinct<T>(s: seq<T>) {
    forall i, j :: 0 <= i < j < |s| ==> s[i] != s[j]
  }

  ghost predicate Issued(w: World) {
    && (forall n :: 0 <= n < |AllPublished(w)| ==> IsIssued(w.calls, AllPublished(w)[n]))
    && Distinct(AllPublished(w))
  }

  ghost predicate Connected(w: World) {
    && P.Inv(w.publisher) && (forall i :: 0 <= i < |w.past| ==> P.Inv(w.past[i]))
    && C.Inv(w.consumer) && w.consumer.stream == AllSent(w)
  }

  ghost predicate Inv(w: World) {
    Issued(w) && Connected(w)
  }

  lemma FreshInv(bufferSize: nat, workers: nat)
    ensures Inv(Fresh(bufferSize, workers))
  {
    P.FreshInv<Ticket>(bufferSize, workers);
  }

  lemma AnswerKeeps(w: World, op: R.Op, reply: R.Reply, at: string)
    requires Inv(w)
    ensures Inv(AnswerStep(w, op, reply, at))
  {
    var after := AnswerStep(w, op, reply, at);
    forall n | 0 <= n < |AllPublished(w)|
      ensures IsIssued(after.calls, AllPublished(w)[n])
    {
      assert IsIssued(w.calls, AllPublished(w)[n]);
    }
    assert AllPublished(after) == AllPublished(w);
  }

  lemma PublishIssued(w: World, c: nat, waiting: Option<nat>)
    requires CanPublish(w, c, waiting) && Issued(w)
    ensures Issued(PublishStep(w, c, waiting))
  {
    var after, t := PublishStep(w, c, waiting), NextTicket(w, c);
    assert AllPublished(after) == AllPublished(w) + [t];
    assert IsIssued(after.calls, t);
    forall n | 0 <= n < |AllPublished(w)|
      ensures IsIssued(after.calls, AllPublished(w)[n]) && AllPublished(w)[n] != t
    {
      assert IsIssued(w.calls, AllPublished(w)[n]);
    }
  }

  lemma PublishConnected(w: World, c: nat, waiting: Option<nat>)
    requires CanPublish(w, c, waiting) && Connected(w)
    ensures Connected(PublishStep(w, c, waiting))
  {
    var t := NextTicket(w, c);
    P.StepInv(w.publisher, if waiting.None? then P.Publish(t) else P.HandOff(t, waiting.value));
  }

  lemma WorkKeeps(w: World, work: P.Action<Ticket>)
    requires Inv(w) && !work.Publish? && !work.HandOff?
    ensures Inv(WorkStep(w, work))
  {
    var after := WorkStep(w, work);
    P.StepInv(w.publisher, work);
    P.WorkMovesOn(w.publisher, work);
    C.LongerStreamInv(w.consumer, AllSent(after));
    assert Issued(after) by {
      assert after.calls == w.calls && AllPublished(after) == AllPublished(w);
    }
  }

  lemma PublishKeeps(w: World, c: nat, waiting: Option<nat>)
    requires Inv(w) && CanPublish(w, c, waiting)
    ensures Inv(PublishStep(w, c, waiting))
  {
    PublishIssued(w, c, waiting);
    PublishConnected(w, c, waiting);
  }

  lemma ConsumeKeeps(w: World, step: C.Action<Ticket>)
    requires Inv(w) && !step.Append?
    ensures Inv(w.(consumer := C.Step(w.consumer, step)))
  {
    C.StepInv(w.consumer, step);
  }

  lemma RestartIssued(w: World, bufferSize: nat, workers: nat)
    requires Issued(w)
    ensures Issued(RestartStep(w, bufferSize, workers))
  {
    var after := RestartStep(w, bufferSize, workers);
    assert after.past[..|w.past|] == w.past;
    assert AllPublished(after) == AllPublished(w);
    forall n | 0 <= n < |AllPublished(w)|
      ensures IsIssued(after.calls, AllPublished(w)[n])
    {
      assert IsIssued(w.calls, AllPublished(w)[n]);
    }
  }

  lemma RestartConnected(w: World, bufferSize: nat, workers: nat)
    requires Connected(w)
    ensures Connected(RestartStep(w, bufferSize, workers))
  {
    var after := RestartStep(w, bufferSize, workers);
    P.FreshInv<Ticket>(bufferSize, workers);
    assert after.past[..|w.past|] == w.past;
    assert AllSent(after) == AllSent(w);
  }

  lemma RestartKeeps(w: World, bufferSize: nat, workers: nat)
    requires Inv(w)
    ensures Inv(RestartStep(w, bufferSize, workers))
  {
    RestartIssued(w, bufferSize, workers);
    RestartConnected(w, bufferSize, workers);
  }

  lemma StepKeeps(w: World, move: Move)
    requires Inv(w)
    ensures Inv(Step(w, move))
  {
    match move
    case Answer(op, reply, at) => AnswerKeeps(w, op, reply, at);
    case Publish(c, waiting) =>
      if CanPublish(w, c, waiting) {
        PublishKeeps(w, c, waiting);
      }
    case Work(work) =>
      if !work.Publish? && !work.HandOff? {
        WorkKeeps(w, work);
      }
    case Consume(step) =>
      if !step.Append? {
        ConsumeKeeps(w, step);
      }
    case Restart(bufferSize, workers) => RestartKeeps(w, bufferSize, workers);
  }

  /** Calls are only added; of a call already made only the progress of its events changes. */
  ghost predicate SameCalls(before: seq<Call>, after: seq<Call>) {
    |before| <= |after| && forall c :: 0 <= c < |before| ==>
      after[c].op == before[c].op && after[c].reply == before[c].reply && after[c].at == before[c].at
  }

  lemma StepKeepsCalls(w: World, move: Move)
    ensures SameCalls(w.calls, Step(w, move).calls)
    ensures !move.Answer? ==> |Step(w, move).calls| == |w.calls|
  {
  }

  // ----- The progress of a call -----

  /** Event number part of call c has been published, under its own name. */
  ghost predicate PartIsPublished(w: World, c: nat, part: nat)
    requires c < |w.calls|
  {
    part < |CallEvents(w.calls[c])| && Ticket(c, part, CallEvents(w.calls[c])[part]) in AllPublished(w)
  }

  /** Each call has published its first events, as many as its progress says, and skipped none. */
  ghost predicate NoneSkipped(w: World) {
    forall c: nat, part: nat :: c < |w.calls| && part < w.calls[c].published ==> PartIsPublished(w, c, part)
  }

  lemma PublishSkipsNone(w: World, c: nat, waiting: Option<nat>)
    requires CanPublish(w, c, waiting) && NoneSkipped(w)
    ensures NoneSkipped(PublishStep(w, c, waiting))
  {
    var after, t := PublishStep(w, c, waiting), NextTicket(w, c);
    assert AllPublished(after) == AllPublished(w) + [t];
    forall d: nat, part: nat | d < |after.calls| && part < after.calls[d].published
      ensures PartIsPublished(after, d, part)
    {
      if d != c || part < w.calls[c].published {
        assert PartIsPublished(w, d, part);
      }
    }
  }

  lemma SamePublishedSkipsNone(w: World, after: World)
    requires NoneSkipped(w) && AllPublished(after) == AllPublished(w) && |w.calls| <= |after.calls|
    requires forall d :: 0 <= d < |w.calls| ==>
               CallEvents(after.calls[d]) == CallEvents(w.calls[d]) && after.calls[d].published == w.calls[d].published
    requires forall d :: |w.calls| <= d < |after.calls| ==> after.calls[d].published == 0
    ensures NoneSkipped(after)
  {
    forall d: nat, part: nat | d < |after.calls| && part < after.calls[d].published
      ensures PartIsPublished(after, d, part)
    {
      assert PartIsPublished(w, d, part);
    }
  }

  lemma WorkSkipsNone(w: World, work: P.Action<Ticket>)
    requires NoneSkipped(w) && !work.Publish? && !work.HandOff?
    ensures NoneSkipped(WorkStep(w, work))
  {
    P.WorkMovesOn(w.publisher, work);
    assert AllPublished(WorkStep(w, work)) == AllPublished(w);
    SamePublishedSkipsNone(w, WorkStep(w, work));
  }

  lemma RestartSkipsNone(w: World, bufferSize: nat, workers: nat)
    requires NoneSkipped(w)
    ensures NoneSkipped(RestartStep(w, bufferSize, workers))
  {
    var after := RestartStep(w, bufferSize, workers);
    assert after.past[..|w.past|] == w.past;
    assert AllPublished(after) == AllPublished(w);
    SamePublishedSkipsNone(w, after);
  }

  lemma StepSkipsNone(w: World, move: Move)
    requires NoneSkipped(w)
    ensures NoneSkipped(Step(w, move))
  {
    match move
    case Answer(op, reply, at) => SamePublishedSkipsNone(w, AnswerStep(w, op, reply, at));
    case Publish(c, waiting) =>
      if CanPublish(w, c, waiting) {
        PublishSkipsNone(w, c, waiting);
      }
    case Work(work) =>
      if !work.Publish? && !work.HandOff? {
        WorkSkipsNone(w, work);
      }
    case Consume(step) =>
      if !step.Append? {
        SamePublishedSkipsNone(w, w.(consumer := C.Step(w.consumer, step)));
      }
    case Restart(bufferSize, workers) => RestartSkipsNone(w, bufferSize, workers);
  }

  /** A restart ends every call, and a call that has ended publishes nothing more. */
  lemma EndedCallsAreSilent(w: World, move: Move, c: nat)
    requires c < |w.calls|
    ensures move.Restart? ==> !Step(w, move).calls[c].alive
    ensures !w.calls[c].alive ==> Step(w, move).calls[c] == w.calls[c]
  {
  }

  // ----- The stored rows -----

  /** The columns _to_row makes of a stream entry; the payload keeps every field. */
  datatype Row = Row(kind: Value, userId: Value, payload: map<string, Value>)

  /** The entry send writes: the type, then the payload's fields. */
  function FieldsOf(event: Event): map<string, Value> {
    map["type" := Text(event.kind)] + event.payload
  }

  function RowOf(event: Event): Row {
    var fields := FieldsOf(event);
    Row(if "type" in fields then fields["type"] else Text(""),
        if "user_id" in fields then fields["user_id"] else Text(""), fields)
  }

  /** The row of a call's event: its kind, the acting user, and every field of the event beside the type. */
  lemma RowShowsEvent(op: R.Op, reply: R.Reply, at: string, part: nat)
    requires part < |EventsOf(op, reply, at)|
    ensures var event := EventsOf(op, reply, at)[part];
            && RowOf(event).kind == Text(event.kind) && RowOf(event).userId == Number(op.actor)
            && RowOf(event).payload == event.payload["type" := Text(event.kind)]
  {
    var event := EventsOf(op, reply, at)[part];
    assert "type" !in event.payload && "user_id" in event.payload;
    assert FieldsOf(event) == event.payload["type" := Text(event.kind)];
  }

  /** The ticket behind stored row number k. */
  function StoredTicket(w: World, k: nat): Ticket
    requires C.Inv(w.consumer) && k < |w.consumer.rows|
  {
    assert w.consumer.rows[k] in w.consumer.rows;
    w.consumer.stream[w.consumer.rows[k]]
  }

  predicate IsMatchRow(row: Row, u: int, t: int, chat: int) {
    && row.userId == Number(u)
    && "user_id" in row.payload && row.payload["user_id"] == Number(u)
    && "target_user_id" in row.payload && row.payload["target_user_id"] == Number(t)
    && "chat_id" in row.payload && row.payload["chat_id"] == Number(chat)
  }

  lemma RepeatedElement<T>(s: seq<T>, i: nat, j: nat)
    requires i < j < |s| && s[i] == s[j]
    ensures multiset(s)[s[i]] >= 2
  {
    assert s == s[..i] + [s[i]] + s[i + 1..j] + [s[j]] + s[j + 1..];
  }

  lemma {:induction false} DistinctOnce<T>(s: seq<T>, x: T)
    requires Distinct(s)
    ensures multiset(s)[x] <= 1
  {
    if s != [] {
      var last := |s| - 1;
      DistinctOnce(s[..last], x);
      assert s == s[..last] + [s[last]];
      if x == s[last] {
        assert x !in s[..last];
      }
    }
  }

  lemma {:induction false} PastSentWasPublished(past: seq<P.State<Ticket>>)
    requires forall i :: 0 <= i < |past| ==> P.Inv(past[i])
    ensures multiset(SentBy(past)) <= multiset(PublishedBy(past))
  {
    if past != [] {
      PastSentWasPublished(past[..|past| - 1]);
      P.SentWasPublished(past[|past| - 1]);
    }
  }

  lemma SentIsDistinct(w: World)
    requires Inv(w)
    ensures Distinct(AllSent(w))
    ensures forall t :: t in AllSent(w) ==> t in AllPublished(w)
  {
    PastSentWasPublished(w.past);
    P.SentWasPublished(w.publisher);
    var sent, published := AllSent(w), AllPublished(w);
    assert multiset(sent) <= multiset(published);
    forall i, j | 0 <= i < j < |sent|
      ensures sent[i] != sent[j]
    {
      DistinctOnce(published, sent[i]);
      if sent[i] == sent[j] {
        RepeatedElement(sent, i, j);
      }
    }
    forall t | t in sent
      ensures t in published
    {
      assert t in multiset(sent);
    }
  }

  lemma StoredWasSent(w: World, k: nat)
    requires Inv(w) && k < |w.consumer.rows|
    ensures w.consumer.rows[k] in w.consumer.rows && 0 <= w.consumer.rows[k] < |AllSent(w)|
    ensures StoredTicket(w, k) == AllSent(w)[w.consumer.rows[k]]
  {
  }

  lemma PublishedIsOnce(w: World, t: Ticket)
    requires Inv(w) && t in AllPublished(w)
    ensures IsPublishedOnce(w, t)
  {
    var n :| 0 <= n < |AllPublished(w)| && AllPublished(w)[n] == t;
    assert IsIssued(w.calls, AllPublished(w)[n]);
    assert t in multiset(AllPublished(w));
    DistinctOnce(AllPublished(w), t);
  }

  lemma RowIsPublished(w: World, k: nat)
    requires Inv(w) && k < |w.consumer.rows|
    ensures IsPublishedOnce(w, StoredTicket(w, k))
  {
    StoredWasSent(w, k);
    SentIsDistinct(w);
    PublishedIsOnce(w, StoredTicket(w, k));
  }

  lemma RowsAreDistinct(w: World, j: nat, k: nat)
    requires Inv(w) && j < k < |w.consumer.rows|
    ensures (StoredTicket(w, j).call, StoredTicket(w, j).part) != (StoredTicket(w, k).call, StoredTicket(w, k).part)
  {
    SentIsDistinct(w);
    RowIsPublished(w, j);
    RowIsPublished(w, k);
    StoredWasSent(w, j);
    StoredWasSent(w, k);
    assert w.consumer.rows[j] < w.consumer.rows[k];
    assert StoredTicket(w, j) != StoredTicket(w, k);
  }

  lemma EventOfCall(w: World, k: nat)
    requires Inv(w) && k < |w.consumer.rows|
    ensures var t := StoredTicket(w, k);
            && t.call < |w.calls| && t.part < |CallEvents(w.calls[t.call])|
            && t.event == CallEvents(w.calls[t.call])[t.part]
  {
    RowIsPublished(w, k);
  }

  /** Stored row k comes from exactly one Publish call, for one event of one service call, and
      no other row comes from that event. */
  lemma RowIsOneEvent(w: World, k: nat)
    requires Inv(w) && k < |w.consumer.rows|
    ensures IsPublishedOnce(w, StoredTicket(w, k))
    ensures forall j :: 0 <= j < |w.consumer.rows| && j != k ==>
              (StoredTicket(w, j).call, StoredTicket(w, j).part) != (StoredTicket(w, k).call, StoredTicket(w, k).part)
  {
    RowIsPublished(w, k);
    forall j | 0 <= j < |w.consumer.rows| && j != k
      ensures (StoredTicket(w, j).call, StoredTicket(w, j).part) != (StoredTicket(w, k).call, StoredTicket(w, k).part)
    {
      if j < k {
        RowsAreDistinct(w, j, k);
      } else {
        RowsAreDistinct(w, k, j);
      }
    }
  }

  /** One Publish call carried the ticket, and it is an event of the call it names. */
  ghost predicate IsPublishedOnce(w: World, t: Ticket) {
    multiset(AllPublished(w))[t] == 1 && IsIssued(w.calls, t)
  }

  // ----- Where every published event is -----

  /** Entry i of the stream is still to be read or handled, is stored, or was lost by a
      failed insert or a reader that died. */
  predicate EntryIsAccountedFor(c: C.State<Ticket>, i: int) {
    i >= c.delivered || C.InHand(c, i) || i in c.rows || i in c.failed || i in c.abandoned
  }

  ghost predicate IsInStream(w: World, t: Ticket) {
    exists i :: 0 <= i < |w.consumer.stream| && w.consumer.stream[i] == t && EntryIsAccountedFor(w.consumer, i)
  }

  /** A publisher dropped the event, holds it, or failed to send it. */
  ghost predicate StoppedAt(s: P.State<Ticket>, t: Ticket) {
    t in s.dropped || t in s.queue || t in P.InFlight(s.workers) || t in s.failed
  }

  ghost predicate StoppedBefore(past: seq<P.State<Ticket>>, t: Ticket) {
    exists i :: 0 <= i < |past| && StoppedAt(past[i], t)
  }

  lemma PublishedSomewhere(s: P.State<Ticket>, t: Ticket)
    requires P.Inv(s) && t in s.published
    ensures StoppedAt(s, t) || t in s.sent
  {
    assert t in multiset(s.published);
    if t !in s.dropped {
      assert t in multiset(s.accepted);
      if t in s.taken {
        assert t in multiset(s.taken);
      }
    }
  }

  lemma {:induction false} PublishedBefore(past: seq<P.State<Ticket>>, t: Ticket)
    requires (forall i :: 0 <= i < |past| ==> P.Inv(past[i])) && t in PublishedBy(past)
    ensures StoppedBefore(past, t) || t in SentBy(past)
  {
    var front, last := past[..|past| - 1], past[|past| - 1];
    if t in last.published {
      PublishedSomewhere(last, t);
    } else {
      PublishedBefore(front, t);
      if StoppedBefore(front, t) {
        var i :| 0 <= i < |front| && StoppedAt(front[i], t);
        assert StoppedAt(past[i], t);
      }
    }
  }

  lemma SentIsAccountedFor(w: World, t: Ticket)
    requires Inv(w) && t in AllSent(w)
    ensures IsInStream(w, t)
  {
    var i :| 0 <= i < |AllSent(w)| && AllSent(w)[i] == t;
    assert i in C.Range(0, w.consumer.delivered) ==> i in w.consumer.acked || i in w.consumer.pending;
    assert EntryIsAccountedFor(w.consumer, i);
  }

  /** Best effort made precise: a published event is dropped, queued, in flight or failed to
      send, at the publisher that took it, which may have ended since; or it is in the stream,
      where it is stored, still due, or lost for a recorded reason. */
  lemma EventIsAccountedFor(w: World, t: Ticket)
    requires Inv(w) && t in AllPublished(w)
    ensures StoppedBefore(w.past, t) || StoppedAt(w.publisher, t) || IsInStream(w, t)
  {
    if t in w.publisher.published {
      PublishedSomewhere(w.publisher, t);
    } else {
      PublishedBefore(w.past, t);
    }
    if t in AllSent(w) {
      SentIsAccountedFor(w, t);
    }
  }
}
