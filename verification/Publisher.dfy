/** The event publisher: a bounded queue, a pool of workers, cancellation and Close.
    Goroutines interleave one step at a time. */
module Publisher {
  import opened Common

  datatype Worker<E> = Idle | Sending(event: E) | Exited

  /** queue to workers are the publisher's own fields; the rest is history: calls of
      Publish, what they accepted and dropped, what workers took, and how each send ended.
      sent is the stream, in the order Redis received it. */
  datatype State<E> = State(
    bufferSize: nat, queue: seq<E>, closed: bool, cancelled: bool, workers: seq<Worker<E>>, closeReturned: bool,
    published: seq<E>, accepted: seq<E>, dropped: seq<E>, taken: seq<E>, sent: seq<E>, failed: seq<E>)

  datatype Action<E> =
    | Publish(event: E)
    | HandOff(event: E, w: nat)
    | Take(w: nat)
    | Finish(w: nat, ok: bool)
    | LeaveCancelled(w: nat)
    | LeaveClosed(w: nat)
    | Cancel
    | CloseQueue
    | CloseReturn

  function Fresh<E>(bufferSize: nat, workers: nat): State<E> {
    State(bufferSize, [], false, false, seq(workers, i => Idle), false, [], [], [], [], [], [])
  }

  predicate IsIdle<E>(s: State<E>, w: nat) {
    w < |s.workers| && s.workers[w].Idle?
  }

  predicate AllExited<E>(workers: seq<Worker<E>>) {
    forall w :: 0 <= w < |workers| ==> workers[w].Exited?
  }

  /** One step; a step that is not enabled, or panics, leaves the state alone. */
  function Step<E>(s: State<E>, action: Action<E>): State<E> {
    match action
    case Publish(e) =>
      if s.closed then s
      else if |s.queue| < s.bufferSize then
        s.(queue := s.queue + [e], published := s.published + [e], accepted := s.accepted + [e])
      else s.(published := s.published + [e], dropped := s.dropped + [e])
    case HandOff(e, w) =>
      // a send finds a worker already waiting on the empty channel
      if s.closed || s.queue != [] || !IsIdle(s, w) then s
      else s.(workers := s.workers[w := Sending(e)], published := s.published + [e],
              accepted := s.accepted + [e], taken := s.taken + [e])
    case Take(w) =>
      if !IsIdle(s, w) || s.queue == [] then s
      else s.(queue := s.queue[1..], workers := s.workers[w := Sending(s.queue[0])], taken := s.taken + [s.queue[0]])
    case Finish(w, ok) =>
      if !(w < |s.workers| && s.workers[w].Sending?) then s
      else
        var e := s.workers[w].event;
        var freed := s.(workers := s.workers[w := Idle]);
        if ok then freed.(sent := s.sent + [e]) else freed.(failed := s.failed + [e])
    case LeaveCancelled(w) =>
      if IsIdle(s, w) && s.cancelled then s.(workers := s.workers[w := Exited]) else s
    case LeaveClosed(w) =>
      if IsIdle(s, w) && s.closed && s.queue == [] then s.(workers := s.workers[w := Exited]) else s
    case Cancel => s.(cancelled := true)
    case CloseQueue => s.(closed := true)
    case CloseReturn => if s.closed && AllExited(s.workers) then s.(closeReturned := true) else s
  }

  function Run<E>(s: State<E>, actions: seq<Action<E>>): State<E> {
    if actions == [] then s else Step(Run(s, actions[..|actions| - 1]), actions[|actions| - 1])
  }

  function Carried<E>(w: Worker<E>): multiset<E> {
    if w.Sending? then multiset{w.event} else multiset{}
  }

  function InFlight<E>(workers: seq<Worker<E>>): multiset<E> {
    if workers == [] then multiset{}
    else InFlight(workers[..|workers| - 1]) + Carried(workers[|workers| - 1])
  }

  lemma InFlightSnoc<E>(front: seq<Worker<E>>, last: Worker<E>)
    ensures InFlight(front + [last]) == InFlight(front) + Carried(last)
  {
    assert (front + [last])[..|front|] == front;
  }

  lemma {:induction false} InFlightUpdate<E>(workers: seq<Worker<E>>, w: nat, next: Worker<E>)
    requires w < |workers|
    ensures InFlight(workers[w := next]) + Carried(workers[w]) == InFlight(workers) + Carried(next)
  {
    var front, last := workers[..|workers| - 1], workers[|workers| - 1];
    assert workers == front + [last];
    InFlightSnoc(front, last);
    if w == |front| {
      assert workers[w := next] == front + [next];
      InFlightSnoc(front, next);
      SwapLast(InFlight(front), Carried(next), Carried(last));
    } else {
      assert workers[w := next] == front[w := next] + [last];
      InFlightSnoc(front[w := next], last);
      InFlightUpdate(front, w, next);
      SwapParts(InFlight(front[w := next]), Carried(workers[w]), InFlight(front), Carried(next), Carried(last));
    }
  }

  lemma SwapLast<E>(a: multiset<E>, b: multiset<E>, c: multiset<E>)
    ensures (a + b) + c == (a + c) + b
  {
  }

  lemma SwapParts<E>(a: multiset<E>, b: multiset<E>, c: multiset<E>, d: multiset<E>, kept: multiset<E>)
    requires a + b == c + d
    ensures (a + kept) + b == (c + kept) + d
  {
    assert (a + kept) + b == (a + b) + kept;
    assert (c + kept) + d == (c + d) + kept;
  }

  lemma {:induction false} NoneInFlight<E>(workers: seq<Worker<E>>)
    requires forall w :: 0 <= w < |workers| ==> !workers[w].Sending?
    ensures InFlight(workers) == multiset{}
  {
    if workers != [] {
      NoneInFlight(workers[..|workers| - 1]);
    }
  }

  /** Where the published events are. */
  ghost predicate Accounted<E>(s: State<E>) {
    && multiset(s.published) == multiset(s.accepted) + multiset(s.dropped)
    && multiset(s.taken) == InFlight(s.workers) + multiset(s.sent) + multiset(s.failed)
  }

  ghost predicate NoneExited<E>(workers: seq<Worker<E>>) {
    forall w :: 0 <= w < |workers| ==> !workers[w].Exited?
  }

  ghost predicate InOrder<E>(s: State<E>) {
    && |s.queue| <= s.bufferSize
    && s.accepted == s.taken + s.queue
    && (s.closeReturned ==> s.closed && AllExited(s.workers))
    && (!s.cancelled && (!s.closed || s.queue != []) ==> NoneExited(s.workers))
  }

  ghost predicate Inv<E>(s: State<E>) {
    Accounted(s) && InOrder(s)
  }

  lemma {:induction false} FreshInv<E>(bufferSize: nat, workers: nat)
    ensures Inv(Fresh<E>(bufferSize, workers))
  {
    NoneInFlight(Fresh<E>(bufferSize, workers).workers);
  }

  lemma PublishAccounted<E>(s: State<E>, e: E)
    requires Accounted(s)
    ensures Accounted(Step(s, Publish(e)))
  {
    OneMore(s.published, e);
    if !s.closed && |s.queue| < s.bufferSize {
      OneMore(s.accepted, e);
    } else if !s.closed {
      OneMore(s.dropped, e);
    }
  }

  lemma OneMore<E>(events: seq<E>, e: E)
    ensures multiset(events + [e]) == multiset(events) + multiset{e}
  {
  }

  /** Worker w starts on event e. */
  lemma StartAccounted<E>(workers: seq<Worker<E>>, w: nat, e: E, taken: seq<E>, sent: seq<E>, failed: seq<E>)
    requires w < |workers| && workers[w].Idle?
    requires multiset(taken) == InFlight(workers) + multiset(sent) + multiset(failed)
    ensures multiset(taken + [e]) == InFlight(workers[w := Sending(e)]) + multiset(sent) + multiset(failed)
  {
    InFlightUpdate(workers, w, Sending(e));
    assert InFlight(workers[w := Sending(e)]) == InFlight(workers) + multiset{e};
    assert multiset(taken + [e]) == multiset(taken) + multiset{e};
  }

  lemma FinishAccounted<E>(s: State<E>, w: nat, ok: bool)
    requires Accounted(s) && w < |s.workers| && s.workers[w].Sending?
    ensures Accounted(Step(s, Finish(w, ok)))
  {
    var e := s.workers[w].event;
    InFlightUpdate(s.workers, w, Idle);
    var rest := InFlight(s.workers[w := Idle]);
    assert InFlight(s.workers) == rest + multiset{e};
    assert multiset(s.sent + [e]) == multiset(s.sent) + multiset{e};
    assert multiset(s.failed + [e]) == multiset(s.failed) + multiset{e};
  }

  lemma HandOffAccounted<E>(s: State<E>, e: E, w: nat)
    requires Accounted(s) && IsIdle(s, w)
    ensures Accounted(Step(s, HandOff(e, w)))
  {
    StartAccounted(s.workers, w, e, s.taken, s.sent, s.failed);
    assert multiset(s.published + [e]) == multiset(s.published) + multiset{e};
    assert multiset(s.accepted + [e]) == multiset(s.accepted) + multiset{e};
  }

  lemma LeaveAccounted<E>(s: State<E>, w: nat)
    requires Accounted(s) && IsIdle(s, w)
    ensures Accounted(s.(workers := s.workers[w := Exited]))
  {
    InFlightUpdate(s.workers, w, Exited);
    var before, after := InFlight(s.workers), InFlight(s.workers[w := Exited]);
    assert after + multiset{} == after && before + multiset{} == before;
  }

  lemma StepAccounted<E>(s: State<E>, action: Action<E>)
    requires Accounted(s)
    ensures Accounted(Step(s, action))
  {
    match action
    case Publish(e) => PublishAccounted(s, e);
    case HandOff(e, w) =>
      if IsIdle(s, w) {
        HandOffAccounted(s, e, w);
      }
    case Take(w) =>
      if IsIdle(s, w) && s.queue != [] {
        StartAccounted(s.workers, w, s.queue[0], s.taken, s.sent, s.failed);
      }
    case Finish(w, ok) =>
      if w < |s.workers| && s.workers[w].Sending? {
        FinishAccounted(s, w, ok);
      }
    case LeaveCancelled(w) =>
      if IsIdle(s, w) {
        LeaveAccounted(s, w);
      }
    case LeaveClosed(w) =>
      if IsIdle(s, w) {
        LeaveAccounted(s, w);
      }
    case _ =>
  }

  lemma StepInOrder<E>(s: State<E>, action: Action<E>)
    requires InOrder(s)
    ensures InOrder(Step(s, action))
  {
    if action.Take? && s.queue != [] {
      assert s.queue == [s.queue[0]] + s.queue[1..];
      assert s.taken + s.queue == (s.taken + [s.queue[0]]) + s.queue[1..];
    }
  }

  lemma StepInv<E>(s: State<E>, action: Action<E>)
    requires Inv(s)
    ensures Inv(Step(s, action))
  {
    StepAccounted(s, action);
    StepInOrder(s, action);
  }

  lemma {:induction false} RunInv<E>(s: State<E>, actions: seq<Action<E>>)
    requires Inv(s)
    ensures Inv(Run(s, actions))
  {
    if actions != [] {
      RunInv(s, actions[..|actions| - 1]);
      StepInv(Run(s, actions[..|actions| - 1]), actions[|actions| - 1]);
    }
  }

  /** Nothing is lost or duplicated: every published event is dropped, queued, in flight,
      sent or failed, as often as it was published; and workers take the accepted events in order. */
  lemma Conservation<E>(bufferSize: nat, workers: nat, actions: seq<Action<E>>)
    ensures var s := Run(Fresh(bufferSize, workers), actions);
            && multiset(s.published) == multiset(s.dropped) + multiset(s.queue) + InFlight(s.workers)
                                        + multiset(s.sent) + multiset(s.failed)
            && |s.queue| <= bufferSize
            && s.taken <= s.accepted && s.accepted[|s.taken|..] == s.queue
  {
    FreshInv<E>(bufferSize, workers);
    RunInv(Fresh(bufferSize, workers), actions);
    RunKeepsShape(Fresh(bufferSize, workers), actions);
  }

  /** What is in the stream was published, no more often than it is there. */
  lemma SentWasPublished<E>(s: State<E>)
    requires Inv(s)
    ensures multiset(s.sent) <= multiset(s.published)
  {
    assert multiset(s.accepted) == multiset(s.taken) + multiset(s.queue);
  }

  /** Steps other than a publish only move events on, at most into the stream. */
  lemma WorkMovesOn<E>(s: State<E>, action: Action<E>)
    requires !action.Publish? && !action.HandOff?
    ensures Step(s, action).published == s.published && s.sent <= Step(s, action).sent
  {
  }

  lemma {:induction false} RunKeepsShape<E>(s: State<E>, actions: seq<Action<E>>)
    ensures Run(s, actions).bufferSize == s.bufferSize && |Run(s, actions).workers| == |s.workers|
  {
    if actions != [] {
      RunKeepsShape(s, actions[..|actions| - 1]);
    }
  }

  // ----- Told from the log of steps -----

  /** What pick finds in each step of a run, in order. */
  function EventsOf<E>(s: State<E>, actions: seq<Action<E>>, pick: (State<E>, Action<E>) -> seq<E>): seq<E> {
    if actions == [] then []
    else
      var front := actions[..|actions| - 1];
      EventsOf(s, front, pick) + pick(Run(s, front), actions[|actions| - 1])
  }

  /** The event of a worker whose send ends with this outcome in this step. */
  function EndedWith<E>(ok: bool): (State<E>, Action<E>) -> seq<E> {
    (s: State<E>, action: Action<E>) =>
      if action.Finish? && action.ok == ok && action.w < |s.workers| && s.workers[action.w].Sending?
      then [s.workers[action.w].event] else []
  }

  /** The event of a publish that finds the queue open with room, or with none. */
  function PublishedWith<E>(room: bool): (State<E>, Action<E>) -> seq<E> {
    (s: State<E>, action: Action<E>) =>
      if action.Publish? && !s.closed && (|s.queue| < s.bufferSize) == room then [action.event]
      else if room && action.HandOff? && !s.closed && s.queue == [] && IsIdle(s, action.w) then [action.event]
      else []
  }

  lemma StepFromLog<E>(s: State<E>, action: Action<E>)
    ensures Step(s, action).sent == s.sent + EndedWith(true)(s, action)
    ensures Step(s, action).failed == s.failed + EndedWith(false)(s, action)
    ensures Step(s, action).accepted == s.accepted + PublishedWith(true)(s, action)
    ensures Step(s, action).dropped == s.dropped + PublishedWith(false)(s, action)
  {
  }

  /** Over every run the stream holds exactly the events whose send ended well, in that order,
      and the failures are exactly those whose send ended badly. */
  lemma {:induction false} SentExactlyWhenEndedWell<E>(s: State<E>, actions: seq<Action<E>>)
    ensures Run(s, actions).sent == s.sent + EventsOf(s, actions, EndedWith(true))
    ensures Run(s, actions).failed == s.failed + EventsOf(s, actions, EndedWith(false))
  {
    if actions != [] {
      SentExactlyWhenEndedWell(s, actions[..|actions| - 1]);
      StepFromLog(Run(s, actions[..|actions| - 1]), actions[|actions| - 1]);
    }
  }

  /** Accepted are exactly the events published to an open queue with room (or handed to a
      waiting worker), dropped exactly those published to an open queue without. */
  lemma {:induction false} DroppedExactlyWhenFull<E>(s: State<E>, actions: seq<Action<E>>)
    ensures Run(s, actions).accepted == s.accepted + EventsOf(s, actions, PublishedWith(true))
    ensures Run(s, actions).dropped == s.dropped + EventsOf(s, actions, PublishedWith(false))
  {
    if actions != [] {
      DroppedExactlyWhenFull(s, actions[..|actions| - 1]);
      StepFromLog(Run(s, actions[..|actions| - 1]), actions[|actions| - 1]);
    }
  }

  /** When Close returns nothing is in flight, and every accepted event was attempted exactly
      once exactly when none is left in the queue; without cancellation, exactly when there is a
      worker or nothing was accepted. */
  lemma CloseDrains<E>(bufferSize: nat, workers: nat, actions: seq<Action<E>>)
    requires Run(Fresh<E>(bufferSize, workers), actions).closeReturned
    ensures var s := Run(Fresh(bufferSize, workers), actions);
            && InFlight(s.workers) == multiset{}
            && (multiset(s.accepted) == multiset(s.sent) + multiset(s.failed) <==> s.queue == [])
            && (!s.cancelled ==>
                  (multiset(s.accepted) == multiset(s.sent) + multiset(s.failed) <==> workers > 0 || s.accepted == []))
  {
    var s := Run(Fresh<E>(bufferSize, workers), actions);
    FreshInv<E>(bufferSize, workers);
    RunInv(Fresh<E>(bufferSize, workers), actions);
    RunKeepsShape(Fresh<E>(bufferSize, workers), actions);
    NoneInFlight(s.workers);
    assert multiset(s.accepted) == multiset(s.taken) + multiset(s.queue);
    assert |multiset(s.queue)| == |s.queue|;
    if !s.cancelled && workers > 0 {
      assert s.workers[0].Exited?;
      assert s.queue == [];
    }
    if workers == 0 {
      NoWorkerTakesNothing(Fresh<E>(bufferSize, workers), actions);
      assert |multiset(s.accepted)| == |s.accepted|;
    }
  }

  lemma {:induction false} NoWorkerTakesNothing<E>(s: State<E>, actions: seq<Action<E>>)
    requires s.workers == []
    ensures Run(s, actions).workers == [] && Run(s, actions).taken == s.taken
    ensures Run(s, actions).sent == s.sent && Run(s, actions).failed == s.failed
  {
    if actions != [] {
      NoWorkerTakesNothing(s, actions[..|actions| - 1]);
    }
  }

  // ----- Close does return -----

  function WorkLeft<E>(workers: seq<Worker<E>>): nat {
    if workers == [] then 0
    else
      WorkLeft(workers[..|workers| - 1]) + Weight(workers[|workers| - 1])
  }

  function Weight<E>(w: Worker<E>): nat {
    match w case Idle => 1 case Sending(_) => 2 case Exited => 0
  }

  lemma {:induction false} WorkLeftUpdate<E>(workers: seq<Worker<E>>, w: nat, next: Worker<E>)
    requires w < |workers|
    ensures WorkLeft(workers[w := next]) + Weight(workers[w]) == WorkLeft(workers) + Weight(next)
  {
    var last := |workers| - 1;
    if w == last {
      assert workers[w := next][..last] == workers[..last];
    } else {
      WorkLeftUpdate(workers[..last], w, next);
      assert workers[w := next][..last] == workers[..last][w := next];
    }
  }

  function DrainMeasure<E>(s: State<E>): nat {
    2 * |s.queue| + WorkLeft(s.workers)
  }

  predicate IsWorkerStep<E>(action: Action<E>) {
    action.Take? || action.Finish? || action.LeaveCancelled? || action.LeaveClosed?
  }

  /** On a closed queue every worker step that does something shortens what is left, and
      no other step adds to it. */
  lemma ClosedStepsDrain<E>(s: State<E>, action: Action<E>)
    requires s.closed
    ensures Step(s, action).closed
    ensures IsWorkerStep(action) && Step(s, action) != s ==> DrainMeasure(Step(s, action)) < DrainMeasure(s)
    ensures !IsWorkerStep(action) ==> DrainMeasure(Step(s, action)) == DrainMeasure(s)
  {
    match action
    case Take(w) =>
      if IsIdle(s, w) && s.queue != [] {
        WorkLeftUpdate(s.workers, w, Sending(s.queue[0]));
      }
    case Finish(w, _) =>
      if w < |s.workers| {
        WorkLeftUpdate(s.workers, w, Idle);
      }
    case LeaveCancelled(w) =>
      if w < |s.workers| {
        WorkLeftUpdate(s.workers, w, Exited);
      }
    case LeaveClosed(w) =>
      if w < |s.workers| {
        WorkLeftUpdate(s.workers, w, Exited);
      }
    case _ =>
  }

  /** While Close is waiting some worker can move: a send ends (it has a timeout), a queued
      event can be taken, or an idle worker can leave. With the measure above, Close returns. */
  lemma CloseNeverStuck<E>(s: State<E>) returns (action: Action<E>)
    requires s.closed && !AllExited(s.workers)
    ensures IsWorkerStep(action) && Step(s, action) != s
  {
    var w :| 0 <= w < |s.workers| && !s.workers[w].Exited?;
    if s.workers[w].Sending? {
      action := Finish(w, true);
      assert Step(s, action).workers[w].Idle?;
    } else if s.queue != [] {
      action := Take(w);
      assert Step(s, action).workers[w].Sending?;
    } else {
      action := LeaveClosed(w);
      assert Step(s, action).workers[w].Exited?;
    }
  }

  // ----- What Close guarantees -----

  lemma RunCons<E>(s: State<E>, action: Action<E>, actions: seq<Action<E>>)
    ensures Run(s, [action] + actions) == Run(Step(s, action), actions)
    decreases |actions|
  {
    var all := [action] + actions;
    if actions == [] {
      assert all[..0] == [];
    } else {
      var front := actions[..|actions| - 1];
      assert all[..|all| - 1] == [action] + front;
      RunCons(s, action, front);
    }
  }

  /** No accepted event is left unattempted. */
  ghost predicate AllAttempted<E>(s: State<E>) {
    multiset(s.accepted) == multiset(s.sent) + multiset(s.failed)
  }

  /** When Close has returned, what was left in the queue is what was not attempted. */
  lemma ReturnedAttempts<E>(s: State<E>)
    requires Inv(s) && s.closeReturned
    ensures AllAttempted(s) <==> s.queue == []
  {
    NoneInFlight(s.workers);
    assert multiset(s.accepted) == multiset(s.taken) + multiset(s.queue);
    assert |multiset(s.queue)| == |s.queue|;
    assert multiset(s.accepted) == multiset(s.sent) + multiset(s.failed) + multiset(s.queue);
  }

  predicate NoCancel<E>(actions: seq<Action<E>>) {
    forall i :: 0 <= i < |actions| ==> !actions[i].Cancel?
  }

  /** Every way the workers may go on, without a cancellation still to come, until Close
      returns attempts every accepted event. */
  ghost predicate CloseAttemptsAll<E(!new)>(s: State<E>) {
    forall more: seq<Action<E>> ::
      NoCancel(more) && Run(Step(s, CloseQueue), more).closeReturned ==> AllAttempted(Run(Step(s, CloseQueue), more))
  }

  /** After a cancellation the select of every worker may choose to leave. */
  lemma {:induction false} WorkersMayLeave<E>(s: State<E>) returns (more: seq<Action<E>>)
    requires s.closed && s.cancelled
    ensures NoCancel(more)
    ensures var end := Run(s, more);
            end.closed && AllExited(end.workers) && end.queue == s.queue && end.taken == s.taken && end.accepted == s.accepted
    decreases WorkLeft(s.workers)
  {
    more := [];
    if !AllExited(s.workers) {
      var w :| 0 <= w < |s.workers| && !s.workers[w].Exited?;
      var action := if s.workers[w].Sending? then Finish(w, false) else LeaveCancelled(w);
      var next := Step(s, action);
      WorkLeftUpdate(s.workers, w, next.workers[w]);
      var rest := WorkersMayLeave(next);
      RunCons(s, action, rest);
      more := [action] + rest;
    }
  }

  /** From every state with a cancellation behind it and events waiting, Close can return
      with all of them still in the queue. */
  lemma CancelledCloseMayAbandon<E>(s: State<E>) returns (more: seq<Action<E>>)
    requires s.cancelled
    ensures NoCancel(more)
    ensures var end := Run(Step(s, CloseQueue), more);
            end.closeReturned && end.queue == s.queue && end.taken == s.taken && end.accepted == s.accepted
  {
    var closed := Step(s, CloseQueue);
    var leave := WorkersMayLeave(closed);
    more := leave + [CloseReturn];
    assert more[..|leave|] == leave;
  }

  ghost predicate Settled<E>(s: State<E>) {
    s.closed && AllExited(s.workers)
  }

  /** Once the queue is closed and the workers are gone nothing moves any more: what is
      queued then is never attempted. */
  lemma {:induction false} SettledStays<E>(s: State<E>, more: seq<Action<E>>)
    requires Settled(s)
    ensures var later := Run(s, more);
            && Settled(later) && later.queue == s.queue && later.taken == s.taken
            && later.sent == s.sent && later.failed == s.failed && later.accepted == s.accepted
  {
    if more != [] {
      SettledStays(s, more[..|more| - 1]);
    }
  }

  lemma {:induction false} StaysClosed<E>(s: State<E>, more: seq<Action<E>>)
    requires s.closed
    ensures var later := Run(s, more);
            && later.closed && later.accepted == s.accepted && |later.workers| == |s.workers|
            && |later.queue| <= |s.queue| && (later.queue != [] && s.workers == [] ==> later.queue == s.queue)
  {
    if more != [] {
      StaysClosed(s, more[..|more| - 1]);
    }
  }

  lemma StepUncancelled<E>(s: State<E>, action: Action<E>)
    requires !s.cancelled && !action.Cancel?
    ensures !Step(s, action).cancelled
  {
  }

  lemma {:induction false} StaysUncancelled<E>(s: State<E>, more: seq<Action<E>>)
    requires !s.cancelled && NoCancel(more)
    ensures !Run(s, more).cancelled
  {
    if more != [] {
      StaysUncancelled(s, more[..|more| - 1]);
      StepUncancelled(Run(s, more[..|more| - 1]), more[|more| - 1]);
    }
  }

  /** What a caller can check before calling Close. */
  predicate NothingCanBeLeft<E>(s: State<E>) {
    s.queue == [] || (!s.cancelled && s.workers != [])
  }

  /** Exactly when calling Close guarantees that every accepted event is attempted: nothing
      is waiting, or there is a worker and no cancellation has come. */
  lemma CloseGuarantee<E(!new)>(s: State<E>)
    requires Inv(s) && !s.closed
    ensures CloseAttemptsAll(s) <==> NothingCanBeLeft(s)
  {
    var closed := Step(s, CloseQueue);
    if NothingCanBeLeft(s) {
      forall more: seq<Action<E>> | NoCancel(more) && Run(closed, more).closeReturned
        ensures AllAttempted(Run(closed, more))
      {
        ClosedRunDrains(s, more);
      }
    } else {
      var more := CloseMayAbandon(s);
      assert !AllAttempted(Run(closed, more));
    }
  }

  lemma ClosedRunDrains<E>(s: State<E>, more: seq<Action<E>>)
    requires Inv(s) && NothingCanBeLeft(s)
    requires NoCancel(more) && Run(Step(s, CloseQueue), more).closeReturned
    ensures AllAttempted(Run(Step(s, CloseQueue), more))
  {
    var closed, end := Step(s, CloseQueue), Run(Step(s, CloseQueue), more);
    StepInv(s, CloseQueue);
    RunInv(closed, more);
    StaysClosed(closed, more);
    if s.queue != [] {
      StaysUncancelled(closed, more);
      assert end.workers[0].Exited?;
    }
    ReturnedAttempts(end);
  }

  lemma CloseMayAbandon<E>(s: State<E>) returns (more: seq<Action<E>>)
    requires Inv(s) && !s.closed && !NothingCanBeLeft(s)
    ensures NoCancel(more)
    ensures var end := Run(Step(s, CloseQueue), more); end.closeReturned && end.queue == s.queue && !AllAttempted(end)
  {
    var closed := Step(s, CloseQueue);
    if s.cancelled {
      more := CancelledCloseMayAbandon(s);
    } else {
      more := [CloseReturn];
      RunCons(closed, CloseReturn, []);
    }
    StepInv(s, CloseQueue);
    RunInv(closed, more);
    ReturnedAttempts(Run(closed, more));
  }

  /** The same when a cancellation may still come while Close waits. */
  ghost predicate CloseAlwaysAttemptsAll<E(!new)>(s: State<E>) {
    forall more: seq<Action<E>> ::
      Run(Step(s, CloseQueue), more).closeReturned ==> AllAttempted(Run(Step(s, CloseQueue), more))
  }

  /** Then only an empty queue is a guarantee. */
  lemma CloseGuaranteeUnderCancellation<E(!new)>(s: State<E>)
    requires Inv(s) && !s.closed
    ensures CloseAlwaysAttemptsAll(s) <==> s.queue == []
  {
    var closed := Step(s, CloseQueue);
    StepInv(s, CloseQueue);
    if s.queue == [] {
      forall more: seq<Action<E>> | Run(closed, more).closeReturned
        ensures AllAttempted(Run(closed, more))
      {
        RunInv(closed, more);
        StaysClosed(closed, more);
        ReturnedAttempts(Run(closed, more));
      }
    } else {
      var more := CancelledLater(s);
      RunInv(closed, more);
      ReturnedAttempts(Run(closed, more));
    }
  }

  lemma CancelledLater<E>(s: State<E>) returns (more: seq<Action<E>>)
    ensures var end := Run(Step(s, CloseQueue), more); end.closeReturned && end.queue == s.queue
  {
    var closed := Step(s, CloseQueue);
    var leave := CancelledCloseMayAbandon(Step(closed, Cancel));
    more := [Cancel] + leave;
    RunCons(closed, Cancel, leave);
  }

  /** One worker, one event published, a cancellation, then Close: the event stays queued. */
  lemma CancellationAbandonsEvent<E>(event: E, later: seq<Action<E>>)
    ensures var s := Run(Fresh(1, 1), [Publish(event), Cancel, CloseQueue, LeaveCancelled(0), CloseReturn]);
            && s.closeReturned && s.accepted == [event] && s.queue == [event]
            && Run(s, later).sent == [] && Run(s, later).failed == []
  {
    var start := Fresh<E>(1, 1);
    var published := Step(start, Publish(event));
    var closed := Step(Step(published, Cancel), CloseQueue);
    var left := Step(closed, LeaveCancelled(0));
    RunCons(start, Publish(event), [Cancel, CloseQueue, LeaveCancelled(0), CloseReturn]);
    assert [Publish(event)] + [Cancel, CloseQueue, LeaveCancelled(0), CloseReturn]
           == [Publish(event), Cancel, CloseQueue, LeaveCancelled(0), CloseReturn];
    RunFour(published, Cancel, CloseQueue, LeaveCancelled(0), CloseReturn);
    assert left.workers == [Exited];
    SettledStays(Step(left, CloseReturn), later);
  }

  lemma RunFour<E>(s: State<E>, a: Action<E>, b: Action<E>, c: Action<E>, d: Action<E>)
    ensures Run(s, [a, b, c, d]) == Step(Step(Step(Step(s, a), b), c), d)
  {
    assert [a] + [b, c, d] == [a, b, c, d] && [b] + [c, d] == [b, c, d] && [c] + [d] == [c, d] && [d] + [] == [d];
    RunCons(s, a, [b, c, d]);
    RunCons(Step(s, a), b, [c, d]);
    RunCons(Step(Step(s, a), b), c, [d]);
    RunCons(Step(Step(Step(s, a), b), c), d, []);
  }

  // ----- The object -----

  datatype PublishOutcome = Accepted | Dropped | Panicked

  /** Publisher with its channel, its workers and the stream they write to. */
  class EventPublisher<E(!new)> {
    const bufferSize: nat
    var queue: seq<E>
    var closed: bool
    var cancelled: bool
    var workers: seq<Worker<E>>
    var closeReturned: bool
    var stream: seq<E>
    ghost var published: seq<E>
    ghost var accepted: seq<E>
    ghost var dropped: seq<E>
    ghost var taken: seq<E>
    ghost var failed: seq<E>

    ghost function Now(): State<E>
      reads this
    {
      State(bufferSize, queue, closed, cancelled, workers, closeReturned,
            published, accepted, dropped, taken, stream, failed)
    }

    /** NewPublisher followed by Start. */
    constructor (bufferSize: nat, workers: nat)
      ensures Now() == Fresh(bufferSize, workers)
    {
      this.bufferSize := bufferSize;
      queue, closed, cancelled, closeReturned, stream := [], false, false, false, [];
      this.workers := seq(workers, i => Idle);
      published, accepted, dropped, taken, failed := [], [], [], [], [];
    }

    /** Publish never waits: a full buffer drops the event, a closed queue panics. */
    method Publish(event: E) returns (outcome: PublishOutcome)
      modifies this
      ensures Now() == Step(old(Now()), Action.Publish(event))
      ensures outcome == if old(closed) then Panicked else if |old(queue)| < bufferSize then Accepted else Dropped
      ensures queue == if outcome.Accepted? then old(queue) + [event] else old(queue)
      ensures stream == old(stream)
    {
      if closed {
        return Panicked;
      }
      published := published + [event];
      if |queue| < bufferSize {
        queue := queue + [event];
        accepted := accepted + [event];
        return Accepted;
      }
      dropped := dropped + [event];
      return Dropped;
    }

    /** The select of worker w: leave on cancellation or on a closed, drained queue; otherwise
        take the oldest event. preferDone resolves the choice when both are ready. */
    method Select(w: nat, preferDone: bool) returns (received: Option<E>)
      requires w < |workers| && workers[w].Idle?
      modifies this
      ensures Now() == Step(old(Now()),
                            if old(cancelled) && (preferDone || old(queue) == []) then LeaveCancelled(w)
                            else if old(queue) != [] then Take(w) else LeaveClosed(w))
      ensures received == if !(old(cancelled) && preferDone) && old(queue) != [] then Some(old(queue)[0]) else None
      ensures received.Some? ==> queue == old(queue)[1..] && workers == old(workers)[w := Sending(received.value)]
      ensures received.None? ==> queue == old(queue)
      ensures stream == old(stream)
    {
      if cancelled && (preferDone || queue == []) {
        workers := workers[w := Exited];
        return None;
      }
      if queue != [] {
        var event := queue[0];
        queue, workers := queue[1..], workers[w := Sending(event)];
        taken := taken + [event];
        return Some(event);
      }
      if closed {
        workers := workers[w := Exited];
      }
      return None;
    }

    /** The end of send: the entry is in the stream, or the failure is logged. */
    method Send(w: nat, ok: bool)
      requires w < |workers| && workers[w].Sending?
      modifies this
      ensures Now() == Step(old(Now()), Finish(w, ok))
      ensures stream == if ok then old(stream) + [old(workers[w].event)] else old(stream)
      ensures failed == if ok then old(failed) else old(failed) + [old(workers[w].event)]
    {
      var event := workers[w].event;
      if ok {
        stream := stream + [event];
      } else {
        failed := failed + [event];
      }
      workers := workers[w := Idle];
    }

    /** One step of worker w; ok is how a send ends, preferDone how a select with both ready chooses. */
    method Advance(w: nat, ok: bool, preferDone: bool) returns (ghost action: Action<E>)
      requires w < |workers| && !workers[w].Exited?
      modifies this
      ensures IsWorkerStep(action) && Now() == Step(old(Now()), action)
      ensures old(closed) ==> closed && DrainMeasure(Now()) < DrainMeasure(old(Now()))
    {
      if workers[w].Sending? {
        action := Finish(w, ok);
        Send(w, ok);
        assert Now().workers[w].Idle?;
      } else {
        action := if cancelled && (preferDone || queue == []) then LeaveCancelled(w)
                  else if queue != [] then Take(w) else LeaveClosed(w);
        var received := Select(w, preferDone);
        assert old(closed) ==> !Now().workers[w].Idle?;
      }
      if old(closed) {
        ClosedStepsDrain(old(Now()), action);
      }
    }

    /** Waiting for the workers: they go on until the last one has left. The outcomes of the
        sends still to come are given by oks, the choices after a cancellation by leaves. */
    method Wait(oks: nat -> bool, leaves: nat -> bool) returns (ghost steps: seq<Action<E>>)
      requires closed
      modifies this
      ensures closed && AllExited(workers) && WorkedTo(old(Now()), steps, Now())
    {
      ghost var start := Now();
      steps := [];
      var n := 0;
      while !AllExited(workers)
        invariant closed && WorkedTo(start, steps, Now())
        decreases DrainMeasure(Now())
      {
        var w := FirstRunning();
        ghost var before := Now();
        ghost var action := Advance(w, oks(n), leaves(n));
        WorkedOn(start, steps, before, action);
        steps := steps + [action];
        n := n + 1;
      }
    }

    /** Close: refuse new events and wait for the workers; on a closed queue it panics. */
    method Close(oks: nat -> bool, leaves: nat -> bool) returns (panicked: bool)
      modifies this
      ensures panicked == old(closed)
      ensures panicked ==> Now() == old(Now())
      ensures !panicked ==> closeReturned && AllExited(workers) && DrainedTo(Step(old(Now()), CloseQueue), Now())
      ensures !panicked && Inv(old(Now())) && NothingCanBeLeft(old(Now())) ==> AllAttempted(Now())
    {
      if closed {
        return true;
      }
      ghost var before := Now();
      closed := true;
      ghost var start := Now();
      assert start == Step(before, CloseQueue);
      ghost var steps := Wait(oks, leaves);
      ghost var drained := Now();
      closeReturned := true;
      assert Now() == Step(drained, CloseReturn);
      CloseEnds(before, start, steps, drained);
      return false;
    }

    method FirstRunning() returns (w: nat)
      requires !AllExited(workers)
      ensures w < |workers| && !workers[w].Exited?
    {
      w := 0;
      while workers[w].Exited?
        invariant w < |workers| && forall v :: 0 <= v < w ==> workers[v].Exited?
        decreases |workers| - w
      {
        w := w + 1;
      }
    }
  }

  ghost predicate WorkedTo<E>(start: State<E>, steps: seq<Action<E>>, end: State<E>) {
    end == Run(start, steps) && forall i :: 0 <= i < |steps| ==> IsWorkerStep(steps[i])
  }

  lemma WorkedOn<E>(start: State<E>, steps: seq<Action<E>>, end: State<E>, action: Action<E>)
    requires WorkedTo(start, steps, end) && IsWorkerStep(action)
    ensures WorkedTo(start, steps + [action], Step(end, action))
  {
    assert (steps + [action])[..|steps|] == steps;
  }

  lemma CloseEnds<E(!new)>(before: State<E>, start: State<E>, steps: seq<Action<E>>, drained: State<E>)
    requires start == Step(before, CloseQueue) && WorkedTo(start, steps, drained)
    requires drained.closed && AllExited(drained.workers)
    ensures DrainedTo(start, Step(drained, CloseReturn))
    ensures Inv(before) && NothingCanBeLeft(before) ==> AllAttempted(Step(drained, CloseReturn))
  {
    assert (steps + [CloseReturn])[..|steps|] == steps;
    if Inv(before) && NothingCanBeLeft(before) {
      ClosedRunDrains(before, steps + [CloseReturn]);
    }
  }

  /** The worker steps that lead from the closing of the queue to the return of Close. */
  ghost predicate DrainedTo<E(!new)>(start: State<E>, end: State<E>) {
    exists steps: seq<Action<E>> :: WorkedTo(start, steps, Run(start, steps)) && end == Step(Run(start, steps), CloseReturn)
  }
}
