/** The analytics consumer: a Redis consumer group read with ">", one ClickHouse insert
    and one acknowledgement per entry. Entries are named by their position in the stream. */
module Consumer {
  import opened Common

  /** Unsure: the row was stored, but the insert was reported as failed. */
  datatype InsertOutcome = Stored | Rejected | Unsure

  /** Raised: the call failed; the group may have processed it all the same. */
  datatype AckOutcome = Acked | Raised(applied: bool)

  /** Broken is the connection error the loop retries, Fatal any other exception; Redis may
      already have handed the entries out. */
  datatype ReadOutcome = Answered | Broken(handedOut: bool) | Fatal(handedOut: bool)

  /** The consumer task. Batch: entries next to end are still to be handled; inserted tells
      whether the insert of next succeeded and its acknowledgement is due. */
  datatype Process = Down | Ready | Batch(next: nat, end: nat, inserted: bool)

  /** rows lists the stored entries in storage order. failed and abandoned are history:
      inserts that were reported failed, and entries a dying task or a broken read left behind. */
  datatype State<E> = State(
    stream: seq<E>, groupExists: bool, delivered: nat, pending: set<int>, acked: set<int>,
    rows: seq<int>, process: Process, failed: set<int>, abandoned: set<int>)

  datatype Action<E> =
    | Append(event: E)
    | Start(ok: bool)
    | Read(outcome: ReadOutcome)
    | Insert(result: InsertOutcome)
    | Ack(reply: AckOutcome)
    | EndBatch
    | Stop
    | Crash

  /** COUNT of the read call. */
  const BATCH: nat := 100

  function Range(lo: int, hi: int): (r: set<int>)
    ensures forall i :: i in r <==> lo <= i < hi
    decreases hi - lo
  {
    if lo >= hi then {} else Range(lo, hi - 1) + {hi - 1}
  }

  function Empty<E>(): State<E> {
    State([], false, 0, {}, {}, [], Down, {}, {})
  }

  /** The end of the next ">" read: at most BATCH entries never delivered before. */
  function ReadEnd<E>(s: State<E>): nat
    requires s.delivered <= |s.stream|
  {
    Min(s.delivered + BATCH, |s.stream|)
  }

  function HandOut<E>(s: State<E>): State<E>
    requires s.delivered <= |s.stream|
  {
    s.(delivered := ReadEnd(s), pending := s.pending + Range(s.delivered, ReadEnd(s)))
  }

  /** Entries handed out to a reader that never sees them. */
  function LoseBatch<E>(s: State<E>): State<E>
    requires s.delivered <= |s.stream|
  {
    HandOut(s).(abandoned := s.abandoned + Range(s.delivered, ReadEnd(s)))
  }

  function ReadStep<E>(s: State<E>, outcome: ReadOutcome): State<E>
    requires s.delivered <= |s.stream|
  {
    match outcome
    case Answered =>
      if ReadEnd(s) == s.delivered then s else HandOut(s).(process := Batch(s.delivered, ReadEnd(s), false))
    case Broken(handedOut) => if handedOut then LoseBatch(s) else s
    case Fatal(handedOut) => (if handedOut then LoseBatch(s) else s).(process := Down)
  }

  function InsertStep<E>(s: State<E>, result: InsertOutcome): State<E>
    requires s.process.Batch?
  {
    var i := s.process.next;
    match result
    case Stored => s.(rows := s.rows + [i], process := s.process.(inserted := true))
    case Rejected => s.(failed := s.failed + {i}, process := s.process.(next := i + 1))
    case Unsure => s.(rows := s.rows + [i], failed := s.failed + {i}, process := s.process.(next := i + 1))
  }

  function AckOne<E>(s: State<E>, i: int): State<E> {
    s.(acked := s.acked + {i}, pending := s.pending - {i})
  }

  function AckStep<E>(s: State<E>, reply: AckOutcome): State<E>
    requires s.process.Batch?
  {
    var Batch(i, end, _) := s.process;
    match reply
    case Acked => AckOne(s, i).(process := Batch(i + 1, end, false))
    case Raised(applied) =>
      // xack stands outside the try block: the exception ends the task
      if applied then AckOne(s, i).(process := Down, abandoned := s.abandoned + Range(i + 1, end))
      else s.(process := Down, abandoned := s.abandoned + Range(i, end))
  }

  /** One step; a step that is not enabled leaves the state alone. */
  function Step<E>(s: State<E>, action: Action<E>): State<E> {
    match action
    case Append(event) => s.(stream := s.stream + [event])
    case Start(ok) =>
      // an existing group answers BUSYGROUP, which is swallowed: its position is kept
      if s.process.Down? && ok then s.(groupExists := true, process := Ready) else s
    case Read(outcome) => if s.process.Ready? && s.delivered <= |s.stream| then ReadStep(s, outcome) else s
    case Insert(result) =>
      if s.process.Batch? && s.process.next < s.process.end && !s.process.inserted then InsertStep(s, result) else s
    case Ack(reply) => if s.process.Batch? && s.process.inserted then AckStep(s, reply) else s
    case EndBatch =>
      if s.process.Batch? && s.process.next == s.process.end then s.(process := Ready) else s
    case Stop => if s.process.Ready? then s.(process := Down) else s
    case Crash =>
      if s.process.Batch? then s.(process := Down, abandoned := s.abandoned + Range(s.process.next, s.process.end))
      else s.(process := Down)
  }

  function Run<E>(s: State<E>, actions: seq<Action<E>>): State<E> {
    if actions == [] then s else Step(Run(s, actions[..|actions| - 1]), actions[|actions| - 1])
  }

  // ----- Invariants -----

  /** Entries below the frontier have had their insert attempted, or never will have. */
  function Frontier<E>(s: State<E>): int {
    if s.process.Batch? then (if s.process.inserted then s.process.next + 1 else s.process.next) else s.delivered
  }

  ghost predicate BatchInside<E>(s: State<E>) {
    && s.delivered <= |s.stream|
    && (!s.groupExists ==> s.delivered == 0 && s.process.Down?)
    && (s.process.Batch? ==>
          && s.process.next <= s.process.end == s.delivered
          && (s.process.inserted ==> s.process.next < s.process.end && s.process.next in s.rows))
  }

  /** Rows stand in stream order, at most one per entry. */
  ghost predicate RowsInOrder<E>(s: State<E>) {
    Ascending(s.rows) && forall i :: i in s.rows ==> 0 <= i < Frontier(s)
  }

  ghost predicate AckedStored<E>(s: State<E>) {
    forall i :: i in s.acked ==> i in s.rows && (s.process.Batch? ==> i < s.process.next)
  }

  predicate InHand<E>(s: State<E>, i: int) {
    s.process.Batch? && s.process.next <= i < s.process.end
  }

  /** The pending list: delivered and not acknowledged; each entry is there for one of three reasons. */
  ghost predicate PendingExplained<E>(s: State<E>) {
    && s.pending == Range(0, s.delivered) - s.acked
    && (forall i :: i in s.pending <==> i in s.failed || i in s.abandoned || InHand(s, i))
    && (forall i :: i in s.failed || i in s.abandoned ==> !InHand(s, i))
  }

  ghost predicate Inv<E>(s: State<E>) {
    BatchInside(s) && RowsInOrder(s) && AckedStored(s) && PendingExplained(s)
  }

  lemma SnocAscending(rows: seq<int>, i: int)
    requires Ascending(rows) && forall x :: x in rows ==> x < i
    ensures Ascending(rows + [i])
  {
    forall k | 0 <= k < |rows| ensures rows[k] < i {
      assert rows[k] in rows;
    }
  }

  lemma ReadInv<E>(s: State<E>, outcome: ReadOutcome)
    requires Inv(s) && s.process.Ready?
    ensures Inv(ReadStep(s, outcome))
  {
  }

  lemma InsertInv<E>(s: State<E>, result: InsertOutcome)
    requires Inv(s) && s.process.Batch? && s.process.next < s.process.end && !s.process.inserted
    ensures Inv(InsertStep(s, result))
  {
    SnocAscending(s.rows, s.process.next);
  }

  lemma AckInv<E>(s: State<E>, reply: AckOutcome)
    requires Inv(s) && s.process.Batch? && s.process.inserted
    ensures Inv(AckStep(s, reply))
  {
  }

  lemma StepInv<E>(s: State<E>, action: Action<E>)
    requires Inv(s)
    ensures Inv(Step(s, action))
  {
    match action
    case Read(outcome) =>
      if s.process.Ready? {
        ReadInv(s, outcome);
      }
    case Insert(result) =>
      if s.process.Batch? && s.process.next < s.process.end && !s.process.inserted {
        InsertInv(s, result);
      }
    case Ack(reply) =>
      if s.process.Batch? && s.process.inserted {
        AckInv(s, reply);
      }
    case _ =>
  }

  /** Entries may join the stream at any time. */
  lemma LongerStreamInv<E>(s: State<E>, stream: seq<E>)
    requires Inv(s) && s.stream <= stream
    ensures Inv(s.(stream := stream))
  {
  }

  lemma {:induction false} RunInv<E>(s: State<E>, actions: seq<Action<E>>)
    requires Inv(s)
    ensures Inv(Run(s, actions))
  {
    if actions != [] {
      RunInv(s, actions[..|actions| - 1]);
      StepInv(Run(s, actions[..|actions| - 1]), actions[|actions| - 1]);
    }
  }

  function StoredEntries(rows: seq<int>): set<int> {
    set i | i in rows
  }

  /** Whatever fails or restarts: acknowledged entries are stored, stored ones were delivered,
      delivered ones are a prefix of the stream, each is stored at most once, in stream order. */
  lemma GroupSafety<E>(actions: seq<Action<E>>)
    ensures var s := Run(Empty(), actions);
            && s.acked <= StoredEntries(s.rows) <= Range(0, s.delivered)
            && s.delivered <= |s.stream|
            && Ascending(s.rows)
            && s.pending == Range(0, s.delivered) - s.acked
  {
    RunInv(Empty<E>(), actions);
  }

  /** Between batches the pending list holds exactly the entries whose insert was reported
      failed and those left behind by a crash, a failed acknowledgement or a broken read. */
  lemma PendingBetweenBatches<E>(actions: seq<Action<E>>)
    requires !Run(Empty<E>(), actions).process.Batch?
    ensures var s := Run(Empty(), actions); s.pending == s.failed + s.abandoned
  {
    RunInv(Empty<E>(), actions);
  }

  /** The step may leave entries behind: a crash, an acknowledgement that raises, or a read that
      fails after Redis has handed entries out. */
  predicate LeavesBehind<E>(action: Action<E>) {
    action.Crash? || (action.Ack? && action.reply != Acked)
    || (action.Read? && action.outcome in {Broken(true), Fatal(true)})
  }

  lemma {:induction false} NothingAbandoned<E>(s: State<E>, actions: seq<Action<E>>)
    requires forall k :: 0 <= k < |actions| ==> !LeavesBehind(actions[k])
    ensures Run(s, actions).abandoned == s.abandoned
  {
    if actions != [] {
      NothingAbandoned(s, actions[..|actions| - 1]);
      StepAbandonsNothing(Run(s, actions[..|actions| - 1]), actions[|actions| - 1]);
    }
  }

  lemma StepAbandonsNothing<E>(s: State<E>, action: Action<E>)
    requires !LeavesBehind(action)
    ensures Step(s, action).abandoned == s.abandoned
  {
  }

  /** In a run without crashes the pending list between batches is the failed inserts. */
  lemma PendingIsFailedInserts<E>(actions: seq<Action<E>>)
    requires forall k :: 0 <= k < |actions| ==> !LeavesBehind(actions[k])
    requires !Run(Empty<E>(), actions).process.Batch?
    ensures Run(Empty<E>(), actions).pending == Run(Empty<E>(), actions).failed
  {
    PendingBetweenBatches(actions);
    NothingAbandoned(Empty<E>(), actions);
  }

  // ----- What is stored, told from the run -----

  /** The step is an insert of entry i that stores a row, whatever it reports. */
  predicate InsertsRow<E>(s: State<E>, action: Action<E>, i: int) {
    && action.Insert? && !action.result.Rejected?
    && s.process.Batch? && !s.process.inserted && s.process.next == i < s.process.end
  }

  /** The step is an acknowledgement of entry i that the group processes. */
  predicate Acknowledges<E>(s: State<E>, action: Action<E>, i: int) {
    && action.Ack? && (action.reply.Raised? ==> action.reply.applied)
    && s.process.Batch? && s.process.inserted && s.process.next == i
  }

  ghost predicate WasInserted<E(!new)>(actions: seq<Action<E>>, i: int) {
    exists k :: 0 <= k < |actions| && InsertsRow(Run(Empty(), actions[..k]), actions[k], i)
  }

  ghost predicate WasAcknowledged<E(!new)>(actions: seq<Action<E>>, i: int) {
    exists k :: 0 <= k < |actions| && Acknowledges(Run(Empty(), actions[..k]), actions[k], i)
  }

  lemma WasInsertedStep<E(!new)>(actions: seq<Action<E>>, action: Action<E>, i: int)
    ensures WasInserted(actions + [action], i) <==> WasInserted(actions, i) || InsertsRow(Run(Empty(), actions), action, i)
  {
    var all := actions + [action];
    assert forall k :: 0 <= k <= |actions| ==> all[..k] == actions[..k];
    assert actions[..|actions|] == actions;
    if k :| 0 <= k < |actions| && InsertsRow(Run(Empty(), actions[..k]), actions[k], i) {
      assert InsertsRow(Run(Empty(), all[..k]), all[k], i);
    }
    if InsertsRow(Run(Empty(), actions), action, i) {
      assert InsertsRow(Run(Empty(), all[..|actions|]), all[|actions|], i);
    }
  }

  lemma WasAcknowledgedStep<E(!new)>(actions: seq<Action<E>>, action: Action<E>, i: int)
    ensures WasAcknowledged(actions + [action], i) <==> WasAcknowledged(actions, i) || Acknowledges(Run(Empty(), actions), action, i)
  {
    var all := actions + [action];
    assert forall k :: 0 <= k <= |actions| ==> all[..k] == actions[..k];
    assert actions[..|actions|] == actions;
    if k :| 0 <= k < |actions| && Acknowledges(Run(Empty(), actions[..k]), actions[k], i) {
      assert Acknowledges(Run(Empty(), all[..k]), all[k], i);
    }
    if Acknowledges(Run(Empty(), actions), action, i) {
      assert Acknowledges(Run(Empty(), all[..|actions|]), all[|actions|], i);
    }
  }

  lemma StepStoresExactly<E>(s: State<E>, action: Action<E>, i: int)
    ensures i in Step(s, action).rows <==> i in s.rows || InsertsRow(s, action, i)
    ensures i in Step(s, action).acked <==> i in s.acked || Acknowledges(s, action, i)
  {
  }

  /** Over every run, crashes and restarts included: an entry has a row exactly when some step
      inserted it with effect, and is acknowledged exactly when some acknowledgement of it got through. */
  lemma {:induction false} StoredExactlyWhenInserted<E(!new)>(actions: seq<Action<E>>, i: int)
    ensures var s := Run(Empty(), actions);
            (i in s.rows <==> WasInserted(actions, i)) && (i in s.acked <==> WasAcknowledged(actions, i))
  {
    if actions != [] {
      var front, last := actions[..|actions| - 1], actions[|actions| - 1];
      assert actions == front + [last];
      StoredExactlyWhenInserted(front, i);
      StepStoresExactly(Run(Empty<E>(), front), last, i);
      WasInsertedStep(front, last, i);
      WasAcknowledgedStep(front, last, i);
    }
  }

  // ----- The life of the task, and what failed, told from the run -----

  /** What ends the task: a stop between batches, a crash, an acknowledgement that raises, and an
      error of the read that is no connection error. A lost connection and a failed insert do not. */
  predicate EndsTask<E>(s: State<E>, action: Action<E>) {
    match action
    case Stop => s.process == Ready
    case Crash => s.process != Down
    case Read(outcome) => outcome.Fatal? && s.process == Ready
    case Ack(reply) => reply.Raised? && s.process.Batch? && s.process.inserted
    case _ => false
  }

  /** The task is alive exactly when it was and nothing ended it, or it has just been started. */
  lemma TaskLivesUntilEnded<E>(actions: seq<Action<E>>, action: Action<E>)
    ensures var s, after := Run(Empty(), actions), Run(Empty(), actions + [action]);
            after.process != Down <==>
              (s.process != Down && !EndsTask(s, action)) || (s.process == Down && action == Start(true))
  {
    RunInv(Empty<E>(), actions);
    assert (actions + [action])[..|actions|] == actions;
  }

  /** The step is an insert of entry i that is reported as failed, whether it stored a row or not. */
  predicate ReportsFailure<E>(s: State<E>, action: Action<E>, i: int) {
    && action.Insert? && action.result != Stored
    && s.process.Batch? && !s.process.inserted && s.process.next == i < s.process.end
  }

  ghost predicate WasReportedFailed<E(!new)>(actions: seq<Action<E>>, i: int) {
    exists k :: 0 <= k < |actions| && ReportsFailure(Run(Empty(), actions[..k]), actions[k], i)
  }

  lemma WasReportedFailedStep<E(!new)>(actions: seq<Action<E>>, action: Action<E>, i: int)
    ensures WasReportedFailed(actions + [action], i) <==>
              WasReportedFailed(actions, i) || ReportsFailure(Run(Empty(), actions), action, i)
  {
    var all := actions + [action];
    assert forall k :: 0 <= k <= |actions| ==> all[..k] == actions[..k];
    assert actions[..|actions|] == actions;
    if k :| 0 <= k < |actions| && ReportsFailure(Run(Empty(), actions[..k]), actions[k], i) {
      assert ReportsFailure(Run(Empty(), all[..k]), all[k], i);
    }
    if ReportsFailure(Run(Empty(), actions), action, i) {
      assert ReportsFailure(Run(Empty(), all[..|actions|]), all[|actions|], i);
    }
  }

  lemma StepFailsExactly<E>(s: State<E>, action: Action<E>, i: int)
    ensures i in Step(s, action).failed <==> i in s.failed || ReportsFailure(s, action, i)
  {
  }

  /** Over every run, the failed inserts are those some step reported as failed. */
  lemma {:induction false} FailedExactlyWhenReported<E(!new)>(actions: seq<Action<E>>, i: int)
    ensures i in Run(Empty(), actions).failed <==> WasReportedFailed(actions, i)
  {
    if actions != [] {
      var front, last := actions[..|actions| - 1], actions[|actions| - 1];
      assert actions == front + [last];
      FailedExactlyWhenReported(front, i);
      StepFailsExactly(Run(Empty<E>(), front), last, i);
      WasReportedFailedStep(front, last, i);
    }
  }

  // ----- No second chance -----

  lemma StepStores<E>(s: State<E>, action: Action<E>, i: int)
    requires Inv(s) && i < s.delivered && !InHand(s, i)
    ensures !InHand(Step(s, action), i) && i < Step(s, action).delivered
    ensures i in Step(s, action).rows <==> i in s.rows
    ensures i in Step(s, action).acked <==> i in s.acked
  {
  }

  /** An entry that was delivered and is no longer in hand is never looked at again: the loop
      reads only new entries, so one that is not stored by then is never stored, and one that is
      pending stays pending, restarts included. */
  lemma {:induction false} NoSecondChance<E>(s: State<E>, more: seq<Action<E>>, i: int)
    requires Inv(s) && 0 <= i < s.delivered && !InHand(s, i)
    ensures var later := Run(s, more);
            && !InHand(later, i) && i < later.delivered
            && (i in later.rows <==> i in s.rows) && (i in later.pending <==> i in s.pending)
  {
    if more != [] {
      var before := Run(s, more[..|more| - 1]);
      RunInv(s, more[..|more| - 1]);
      NoSecondChance(s, more[..|more| - 1], i);
      StepStores(before, more[|more| - 1], i);
      StepInv(before, more[|more| - 1]);
    }
  }

  /** So a failed insert loses the entry for good, whatever happens later. */
  lemma RejectedInsertIsLost<E>(event: E, more: seq<Action<E>>)
    ensures var s := Run(Empty(), [Append(event), Start(true), Read(Answered), Insert(Rejected)]);
            s.failed == {0} && 0 !in Run(s, more).rows && 0 in Run(s, more).pending
  {
    var first := [Append(event), Start(true), Read(Answered), Insert(Rejected)];
    RunTwo(Empty<E>(), first[0], first[1]);
    RunTwo(Run(Empty<E>(), first[..2]), first[2], first[3]);
    assert first[..2] == [first[0], first[1]];
    assert first == first[..2] + [first[2], first[3]];
    RunConcat(Empty<E>(), first[..2], [first[2], first[3]]);
    RunInv(Empty<E>(), first);
    NoSecondChance(Run(Empty<E>(), first), more, 0);
  }

  // ----- run_consumer -----

  /** What the outside world does to one call of run_consumer: the answer to creating the
      group, per poll the new entries and the read's outcome, per entry the insert's and
      the acknowledgement's. */
  datatype World<!E> = World(
    groupOk: bool, arrivals: nat -> seq<E>, read: nat -> ReadOutcome,
    insert: nat -> InsertOutcome, ack: nat -> AckOutcome)

  /** One entry: insert it, acknowledge it if that worked. */
  function AfterEntry<E>(s: State<E>, w: World<E>): State<E>
    requires s.process.Batch?
  {
    var i := s.process.next;
    var tried := Step(s, Insert(w.insert(i)));
    if w.insert(i).Stored? then Step(tried, Ack(w.ack(i))) else tried
  }

  function AfterEntries<E>(s: State<E>, w: World<E>): State<E>
    decreases if s.process.Batch? then s.process.end - s.process.next else 0
  {
    if s.process.Batch? && !s.process.inserted && s.process.next < s.process.end then AfterEntries(AfterEntry(s, w), w)
    else s
  }

  /** New entries arrive, one read, then every entry of the batch. */
  function AfterPoll<E>(s: State<E>, w: World<E>, k: nat): State<E> {
    var arrived := s.(stream := s.stream + w.arrivals(k));
    Step(AfterEntries(Step(arrived, Read(w.read(k))), w), EndBatch)
  }

  /** Polls from k on, until the stop event is seen at poll number polls or the task dies. */
  function AfterPolls<E>(s: State<E>, w: World<E>, k: nat, polls: nat): State<E>
    decreases polls - k
  {
    if k >= polls || !s.process.Ready? then s else AfterPolls(AfterPoll(s, w, k), w, k + 1, polls)
  }

  function AfterConsumer<E>(s: State<E>, w: World<E>, polls: nat): State<E> {
    Step(AfterPolls(Step(s, Start(w.groupOk)), w, 0, polls), Stop)
  }

  /** A batch is worked off by runs of Insert and Ack steps. */
  lemma {:induction false} EntriesAreSteps<E>(s: State<E>, w: World<E>) returns (actions: seq<Action<E>>)
    ensures AfterEntries(s, w) == Run(s, actions)
    decreases if s.process.Batch? then s.process.end - s.process.next else 0
  {
    actions := [];
    if s.process.Batch? && !s.process.inserted && s.process.next < s.process.end {
      var i := s.process.next;
      var first := if w.insert(i).Stored? then [Insert(w.insert(i)), Ack(w.ack(i))] else [Insert(w.insert(i))];
      var tried := Step(s, Insert(w.insert(i)));
      RunOne(s, Insert(w.insert(i)));
      RunTwo(s, Insert(w.insert(i)), Ack(w.ack(i)));
      assert Run(s, first) == AfterEntry(s, w);
      var rest := EntriesAreSteps(AfterEntry(s, w), w);
      actions := first + rest;
      RunConcat(s, first, rest);
    }
  }

  lemma RunOne<E>(s: State<E>, a: Action<E>)
    ensures Run(s, [a]) == Step(s, a)
  {
    assert [a][..0] == [];
  }

  lemma RunTwo<E>(s: State<E>, a: Action<E>, b: Action<E>)
    ensures Run(s, [a, b]) == Step(Step(s, a), b)
  {
    assert [a, b][..1] == [a];
    RunOne(s, a);
  }

  lemma {:induction false} RunConcat<E>(s: State<E>, first: seq<Action<E>>, second: seq<Action<E>>)
    ensures Run(s, first + second) == Run(Run(s, first), second)
  {
    if second == [] {
      assert first + second == first;
    } else {
      var last := |second| - 1;
      assert (first + second)[..|first| + last] == first + second[..last];
      RunConcat(s, first, second[..last]);
    }
  }

  lemma {:induction false} ArrivalsAreSteps<E>(s: State<E>, events: seq<E>) returns (actions: seq<Action<E>>)
    ensures Run(s, actions) == s.(stream := s.stream + events)
  {
    if events == [] {
      actions := [];
      assert s.stream + events == s.stream;
    } else {
      var last := |events| - 1;
      var front := ArrivalsAreSteps(s, events[..last]);
      actions := front + [Append(events[last])];
      assert actions[..|front|] == front;
      assert s.stream + events == s.stream + events[..last] + [events[last]];
    }
  }

  lemma PollIsSteps<E>(s: State<E>, w: World<E>, k: nat) returns (actions: seq<Action<E>>)
    ensures AfterPoll(s, w, k) == Run(s, actions)
  {
    var arrive := ArrivalsAreSteps(s, w.arrivals(k));
    var arrived := s.(stream := s.stream + w.arrivals(k));
    RunOne(arrived, Read(w.read(k)));
    RunConcat(s, arrive, [Read(w.read(k))]);
    var batch := EntriesAreSteps(Step(arrived, Read(w.read(k))), w);
    RunConcat(s, arrive + [Read(w.read(k))], batch);
    var done := arrive + [Read(w.read(k))] + batch;
    RunOne(Run(s, done), EndBatch);
    RunConcat(s, done, [EndBatch]);
    actions := done + [EndBatch];
  }

  lemma {:induction false} PollsAreSteps<E>(s: State<E>, w: World<E>, k: nat, polls: nat) returns (actions: seq<Action<E>>)
    ensures AfterPolls(s, w, k, polls) == Run(s, actions)
    decreases polls - k
  {
    actions := [];
    if k < polls && s.process.Ready? {
      var first := PollIsSteps(s, w, k);
      var rest := PollsAreSteps(AfterPoll(s, w, k), w, k + 1, polls);
      actions := first + rest;
      RunConcat(s, first, rest);
    }
  }

  /** A call of run_consumer is a run of the protocol, so everything proved of runs holds of it. */
  lemma ConsumerIsRun<E>(s: State<E>, w: World<E>, polls: nat) returns (actions: seq<Action<E>>)
    ensures AfterConsumer(s, w, polls) == Run(s, actions)
  {
    RunOne(s, Start(w.groupOk));
    var rest := PollsAreSteps(Step(s, Start(w.groupOk)), w, 0, polls);
    RunConcat(s, [Start(w.groupOk)], rest);
    RunOne(Run(s, [Start(w.groupOk)] + rest), Stop);
    RunConcat(s, [Start(w.groupOk)] + rest, [Stop]);
    actions := [Start(w.groupOk)] + rest + [Stop];
  }

  // ----- Exactly what is stored -----

  /** The entries of [lo, hi) whose insert stores a row. */
  function StoredAmong<E>(w: World<E>, lo: nat, hi: nat): (r: seq<int>)
    decreases hi - lo
  {
    if lo >= hi then [] else (if w.insert(lo).Rejected? then [] else [lo as int]) + StoredAmong(w, lo + 1, hi)
  }

  lemma {:induction false} StoredSplit<E>(w: World<E>, lo: nat, mid: nat, hi: nat)
    requires lo <= mid <= hi
    ensures StoredAmong(w, lo, hi) == StoredAmong(w, lo, mid) + StoredAmong(w, mid, hi)
    decreases mid - lo
  {
    if lo < mid {
      StoredSplit(w, lo + 1, mid, hi);
    }
  }

  ghost predicate NoCrash<E>(w: World<E>) {
    w.groupOk && (forall k :: w.read(k).Answered?) && (forall i :: w.ack(i).Acked?)
  }

  /** Exactly the entries of [lo, hi) whose insert succeeded were acknowledged. */
  ghost predicate AckedBetween<E>(before: set<int>, after: set<int>, w: World<E>, lo: nat, hi: nat) {
    forall i :: i in after <==> i in before || (lo <= i < hi && w.insert(i).Stored?)
  }

  /** From before to after, exactly the entries of [lo, hi) were tried, in order. */
  ghost predicate Worked<E>(before: State<E>, after: State<E>, w: World<E>, lo: nat, hi: nat) {
    lo <= hi && after.rows == before.rows + StoredAmong(w, lo, hi) && AckedBetween(before.acked, after.acked, w, lo, hi)
  }

  lemma AckedOn<E>(a: set<int>, b: set<int>, c: set<int>, w: World<E>, lo: nat, mid: nat, hi: nat)
    requires lo <= mid <= hi && AckedBetween(a, b, w, lo, mid) && AckedBetween(b, c, w, mid, hi)
    ensures AckedBetween(a, c, w, lo, hi)
  {
  }

  lemma StoredAfter<E>(rows: seq<int>, w: World<E>, lo: nat, mid: nat, hi: nat)
    requires lo <= mid <= hi
    ensures (rows + StoredAmong(w, lo, mid)) + StoredAmong(w, mid, hi) == rows + StoredAmong(w, lo, hi)
  {
    StoredSplit(w, lo, mid, hi);
    ConcatAssociative(rows, StoredAmong(w, lo, mid), StoredAmong(w, mid, hi));
  }

  lemma ConcatAssociative(a: seq<int>, b: seq<int>, c: seq<int>)
    ensures (a + b) + c == a + (b + c)
  {
  }

  lemma WorkedOn<E>(a: State<E>, b: State<E>, c: State<E>, w: World<E>, lo: nat, mid: nat, hi: nat)
    requires Worked(a, b, w, lo, mid) && Worked(b, c, w, mid, hi)
    ensures Worked(a, c, w, lo, hi)
  {
    StoredAfter(a.rows, w, lo, mid, hi);
    AckedOn(a.acked, b.acked, c.acked, w, lo, mid, hi);
  }

  lemma {:induction false} EntryWorked<E>(s: State<E>, w: World<E>)
    requires NoCrash(w) && s.process.Batch? && !s.process.inserted && s.process.next < s.process.end
    ensures var after, i := AfterEntry(s, w), s.process.next;
            && after.process == s.process.(next := i + 1) && after.delivered == s.delivered && after.stream == s.stream
            && Worked(s, after, w, i, i + 1)
  {
  }

  lemma {:induction false} EntriesWorked<E>(s: State<E>, w: World<E>)
    requires NoCrash(w) && s.process.Batch? && !s.process.inserted && s.process.next <= s.process.end
    ensures var after := AfterEntries(s, w);
            && after.process == s.process.(next := s.process.end)
            && after.delivered == s.delivered && after.stream == s.stream
            && Worked(s, after, w, s.process.next, s.process.end)
    decreases s.process.end - s.process.next
  {
    if s.process.next < s.process.end {
      var next := AfterEntry(s, w);
      EntryWorked(s, w);
      EntriesWorked(next, w);
      WorkedOn(s, next, AfterEntries(s, w), w, s.process.next, s.process.next + 1, s.process.end);
    }
  }

  lemma PollWorked<E>(s: State<E>, w: World<E>, k: nat)
    requires NoCrash(w) && s.process.Ready? && s.delivered <= |s.stream|
    ensures var after := AfterPoll(s, w, k);
            && after.process.Ready? && after.stream == s.stream + w.arrivals(k)
            && after.delivered == Min(s.delivered + BATCH, |after.stream|)
            && Worked(s, after, w, s.delivered, after.delivered)
  {
    var arrived := s.(stream := s.stream + w.arrivals(k));
    var read := Step(arrived, Read(w.read(k)));
    assert w.read(k).Answered?;
    if read.process.Batch? {
      EntriesWorked(read, w);
    }
  }

  lemma {:induction false} PollsWorked<E>(s: State<E>, w: World<E>, k: nat, polls: nat)
    requires NoCrash(w) && s.process.Ready? && s.delivered <= |s.stream| && k <= polls
    ensures var after := AfterPolls(s, w, k, polls);
            && after.process.Ready? && s.stream <= after.stream && after.delivered <= |after.stream|
            && Min(s.delivered + BATCH * (polls - k), |s.stream|) <= after.delivered
            && Worked(s, after, w, s.delivered, after.delivered)
    decreases polls - k
  {
    if k < polls {
      var next := AfterPoll(s, w, k);
      PollWorked(s, w, k);
      PollsWorked(next, w, k + 1, polls);
      WorkedOn(s, next, AfterPolls(s, w, k, polls), w, s.delivered, next.delivered, AfterPolls(s, w, k, polls).delivered);
    }
  }

  /** While the task lives, one call stores exactly the entries it was handed whose insert
      stores a row, once each and in order, acknowledges exactly those reported stored, and
      gets through BATCH entries a poll as long as there are any. */
  lemma ConsumerStoresExactly<E>(s: State<E>, w: World<E>, polls: nat)
    requires NoCrash(w) && s.process.Down? && s.delivered <= |s.stream|
    ensures var after := AfterConsumer(s, w, polls);
            && after.process.Down?
            && after.rows == s.rows + StoredAmong(w, s.delivered, after.delivered)
            && AckedBetween(s.acked, after.acked, w, s.delivered, after.delivered)
            && Min(s.delivered + BATCH * polls, |s.stream|) <= after.delivered
  {
    PollsWorked(Step(s, Start(w.groupOk)), w, 0, polls);
  }

  /** Redis, ClickHouse and the task, updated in place. */
  class RedisConsumer<E> {
    var stream: seq<E>
    var groupExists: bool
    var delivered: nat
    var pending: set<int>
    var acked: set<int>
    var rows: seq<int>
    ghost var process: Process
    ghost var failed: set<int>
    ghost var abandoned: set<int>

    ghost function Now(): State<E>
      reads this
    {
      State(stream, groupExists, delivered, pending, acked, rows, process, failed, abandoned)
    }

    constructor ()
      ensures Now() == Empty()
    {
      stream, groupExists, delivered, pending, acked, rows := [], false, 0, {}, {}, [];
      process, failed, abandoned := Down, {}, {};
    }

    /** Entries the publisher adds while the task is busy. */
    method Arrive(events: seq<E>)
      modifies this
      ensures Now() == old(Now()).(stream := old(stream) + events)
    {
      stream := stream + events;
    }

    /** _ensure_group: create the group at the start of the stream unless it exists. */
    method EnsureGroup(ok: bool) returns (ready: bool)
      requires process.Down?
      modifies this
      ensures ready == ok && Now() == Step(old(Now()), Start(ok))
      ensures Now() == if ok then old(Now()).(groupExists := true, process := Ready) else old(Now())
    {
      if ok {
        groupExists := true;
        process := Ready;
      }
      return ok;
    }

    /** xreadgroup with ">": hand out up to BATCH new entries, [from, to). */
    method ReadGroup(outcome: ReadOutcome) returns (from: nat, to: nat)
      requires process.Ready? && delivered <= |stream|
      modifies this
      ensures Now() == Step(old(Now()), Read(outcome))
      ensures outcome.Answered? ==> from == old(delivered) && to == delivered
      ensures var end := if |stream| <= old(delivered) + 100 then |stream| else old(delivered) + 100;
              if outcome.Answered? || outcome.handedOut
              then delivered == end && forall i :: i in pending <==> i in old(pending) || old(delivered) <= i < end
              else delivered == old(delivered) && pending == old(pending)
      ensures process == if outcome.Fatal? then Down
                         else if outcome.Answered? && old(delivered) < delivered then Batch(old(delivered), delivered, false)
                         else Ready
      ensures stream == old(stream) && acked == old(acked) && rows == old(rows) && failed == old(failed)
              && groupExists == old(groupExists)
    {
      from, to := delivered, delivered;
      if outcome.Answered? || (outcome.Broken? && outcome.handedOut) || (outcome.Fatal? && outcome.handedOut) {
        to := Min(delivered + BATCH, |stream|);
        delivered := to;
        pending := pending + Range(from, to);
        if !outcome.Answered? {
          abandoned := abandoned + Range(from, to);
        }
      }
      if outcome.Fatal? {
        process := Down;
      } else if outcome.Answered? && from < to {
        process := Batch(from, to, false);
      }
    }

    /** insert_event for entry i; ok is false when it raises. */
    method InsertEvent(i: nat, result: InsertOutcome) returns (ok: bool)
      requires process.Batch? && !process.inserted && i == process.next < process.end
      modifies this
      ensures ok == result.Stored? && Now() == Step(old(Now()), Insert(result))
      ensures rows == if result == Rejected then old(rows) else old(rows) + [i]
      ensures failed == if result == Stored then old(failed) else old(failed) + {i}
      ensures process == if result == Stored then Batch(i, old(process.end), true) else Batch(i + 1, old(process.end), false)
      ensures acked == old(acked) && pending == old(pending) && delivered == old(delivered) && stream == old(stream)
    {
      if !result.Rejected? {
        rows := rows + [i];
      }
      ok := result.Stored?;
      if ok {
        process := process.(inserted := true);
      } else {
        failed := failed + {i};
        process := process.(next := i + 1);
      }
    }

    /** xack for entry i; ok is false when it raises, which ends the task. */
    method Acknowledge(i: nat, reply: AckOutcome) returns (ok: bool)
      requires process.Batch? && process.inserted && i == process.next
      modifies this
      ensures ok == reply.Acked? && Now() == Step(old(Now()), Ack(reply))
      ensures var applied := reply == Acked || reply == Raised(true);
              && acked == (if applied then old(acked) + {i} else old(acked))
              && pending == (if applied then old(pending) - {i} else old(pending))
      ensures process == if reply == Acked then Batch(i + 1, old(process.end), false) else Down
      ensures rows == old(rows) && failed == old(failed) && delivered == old(delivered) && stream == old(stream)
    {
      ok := reply.Acked?;
      if ok || reply.applied {
        acked := acked + {i};
        pending := pending - {i};
      }
      if ok {
        process := Batch(i + 1, process.end, false);
      } else {
        abandoned := abandoned + Range(if reply.applied then i + 1 else i, process.end);
        process := Down;
      }
    }

    /** The messages of one response. */
    method HandleBatch(w: World<E>, from: nat, to: nat) returns (alive: bool)
      requires process == Batch(from, to, false) && from <= to && delivered <= |stream|
      modifies this
      ensures Now() == Step(AfterEntries(old(Now()), w), EndBatch)
      ensures alive == process.Ready? && delivered <= |stream|
    {
      ghost var all := AfterEntries(Now(), w);
      for i := from to to
        invariant process == Batch(i, to, false) && delivered <= |stream|
        invariant AfterEntries(Now(), w) == all
      {
        var ok := InsertEvent(i, w.insert(i));
        if !ok {
          continue;
        }
        ok := Acknowledge(i, w.ack(i));
        if !ok {
          return false;
        }
      }
      process := Ready;
      return true;
    }

    /** One turn of the loop: what arrived, one read, and the batch it answers with; alive is
        false when an exception leaves the loop. */
    method Poll(w: World<E>, k: nat) returns (alive: bool)
      requires process.Ready? && delivered <= |stream|
      modifies this
      ensures Now() == AfterPoll(old(Now()), w, k)
      ensures alive == process.Ready? && delivered <= |stream|
      ensures w.read(k).Broken? ==> alive
      ensures w.read(k).Fatal? ==> !alive
    {
      Arrive(w.arrivals(k));
      var from, to := ReadGroup(w.read(k));
      assert process.Batch? || Step(AfterEntries(Now(), w), EndBatch) == Now();
      if w.read(k).Fatal? {
        return false;
      }
      if w.read(k).Broken? || from == to {
        return true;
      }
      alive := HandleBatch(w, from, to);
    }

    /** run_consumer: polls counts the reads begun before the stop event is seen. */
    method RunConsumer(w: World<E>, polls: nat)
      requires process.Down? && delivered <= |stream|
      modifies this
      ensures Now() == AfterConsumer(old(Now()), w, polls)
    {
      var alive := EnsureGroup(w.groupOk);
      if !alive {
        return;
      }
      ghost var all := AfterPolls(Now(), w, 0, polls);
      var k := 0;
      while k < polls
        invariant 0 <= k <= polls && process.Ready? && delivered <= |stream|
        invariant AfterPolls(Now(), w, k, polls) == all
      {
        alive := Poll(w, k);
        k := k + 1;
        if !alive {
          return;
        }
      }
      process := Down;
    }
  }
}
