/** Any number of instances running the migrations at once, each with the files it ships. */
module MigrationInstances {
  import opened Common
  import opened Migrations

  /** names are the shipped files in order; the first done of them are dealt with, and own
      holds the files this transaction has executed and recorded, visible to itself only. */
  datatype Instance =
    | Idle
    | Waiting(entries: seq<Entry>)
    | Working(entries: seq<Entry>, done: nat, own: seq<string>)
    | Finished(ok: bool)

  /** history is the shipped files of the committed runs, in commit order. */
  datatype State = State(db: Db, lock: Option<nat>, instances: seq<Instance>, history: seq<seq<Entry>>)

  datatype Action =
    | Start(i: nat, entries: seq<Entry>)
    | Lock(i: nat)
    | NextFile(i: nat)
    | CommitRun(i: nat, replyLost: bool)
    | Fail(i: nat)

  function NoneRunning(instances: nat): State {
    State(EMPTY, None, seq(instances, i => Idle), [])
  }

  /** A step that is not enabled leaves the state alone. Fail is any error or crash: the
      transaction is rolled back, which also releases the lock. */
  function Step(s: State, action: Action): State {
    var i := action.i;
    if i >= |s.instances| then s
    else
      var me := s.instances[i];
      match action
      case Start(_, entries) =>
        if me.Idle? || me.Finished? then s.(instances := s.instances[i := Waiting(entries)]) else s
      case Lock(_) =>
        if me.Waiting? && s.lock.None? then
          s.(lock := Some(i), instances := s.instances[i := Working(me.entries, 0, [])])
        else s
      case NextFile(_) =>
        if !me.Working? || me.done >= |ShippedNames(me.entries)| then s
        else
          var name := ShippedNames(me.entries)[me.done];
          var applied := name in s.db.recorded || name in me.own;
          s.(instances := s.instances[i := me.(done := me.done + 1, own := if applied then me.own else me.own + [name])])
      case CommitRun(_, replyLost) =>
        if !me.Working? || me.done < |ShippedNames(me.entries)| then s
        else
          State(Commit(s.db, me.own), if s.lock == Some(i) then None else s.lock,
                s.instances[i := Finished(!replyLost)], s.history + [me.entries])
      case Fail(_) =>
        if me.Waiting? || me.Working? then
          s.(lock := if s.lock == Some(i) then None else s.lock, instances := s.instances[i := Finished(false)])
        else s
  }

  function Run(s: State, actions: seq<Action>): State {
    if actions == [] then s else Step(Run(s, actions[..|actions| - 1]), actions[|actions| - 1])
  }

  /** The same runs one after the other. */
  function Serial(history: seq<seq<Entry>>): Db {
    if history == [] then EMPTY else Migrate(Serial(history[..|history| - 1]), history[|history| - 1])
  }

  /** Only the holder of the lock is at work, and it sees what no one else can change. */
  ghost predicate OneAtWork(s: State) {
    forall i :: 0 <= i < |s.instances| && s.instances[i].Working? ==> HoldsLock(s, i)
  }

  ghost predicate HoldsLock(s: State, i: nat)
    requires i < |s.instances| && s.instances[i].Working?
  {
    var me := s.instances[i];
    && s.lock == Some(i)
    && me.done <= |ShippedNames(me.entries)|
    && me.own == NewNames(ShippedNames(me.entries)[..me.done], s.db.recorded)
  }

  ghost predicate Inv(s: State) {
    OneAtWork(s) && s.db == Serial(s.history)
  }

  lemma NextName(names: seq<string>, done: nat, recorded: set<string>)
    requires done < |names|
    ensures var own, name := NewNames(names[..done], recorded), names[done];
            NewNames(names[..done + 1], recorded) == if name in recorded || name in own then own else own + [name]
  {
    assert names[..done + 1][..done] == names[..done];
  }

  /** Instance i alone moves on, and still holds the lock. */
  lemma OneAtWorkOn(s: State, after: State, i: nat)
    requires OneAtWork(s) && i < |s.instances| && s.instances[i].Working?
    requires after.db == s.db && after.lock == s.lock && |after.instances| == |s.instances| && after.instances[i].Working?
    requires forall k :: 0 <= k < |after.instances| && k != i ==> after.instances[k] == s.instances[k]
    requires HoldsLock(after, i)
    ensures OneAtWork(after)
  {
  }

  lemma NextFileInv(s: State, i: nat)
    requires Inv(s)
    ensures Inv(Step(s, NextFile(i)))
  {
    if i < |s.instances| && s.instances[i].Working? {
      var me := s.instances[i];
      if me.done < |ShippedNames(me.entries)| {
        assert HoldsLock(s, i);
        NextName(ShippedNames(me.entries), me.done, s.db.recorded);
        OneAtWorkOn(s, Step(s, NextFile(i)), i);
      }
    }
  }

  lemma CommitMigrates(s: State, i: nat, replyLost: bool)
    requires Inv(s) && i < |s.instances| && s.instances[i].Working?
    requires s.instances[i].done >= |ShippedNames(s.instances[i].entries)|
    ensures Step(s, CommitRun(i, replyLost)).db == Migrate(s.db, s.instances[i].entries)
  {
    var me := s.instances[i];
    assert HoldsLock(s, i);
    assert ShippedNames(me.entries)[..me.done] == ShippedNames(me.entries);
  }

  lemma SerialSnoc(history: seq<seq<Entry>>, entries: seq<Entry>)
    ensures Serial(history + [entries]) == Migrate(Serial(history), entries)
  {
    assert (history + [entries])[..|history|] == history;
  }

  lemma CommitInv(s: State, i: nat, replyLost: bool)
    requires Inv(s)
    ensures Inv(Step(s, CommitRun(i, replyLost)))
  {
    var after := Step(s, CommitRun(i, replyLost));
    if after != s {
      CommitMigrates(s, i, replyLost);
      SerialSnoc(s.history, s.instances[i].entries);
      assert OneAtWork(after) by {
        assert forall k :: 0 <= k < |after.instances| ==> !after.instances[k].Working?;
      }
    }
  }

  lemma StepInv(s: State, action: Action)
    requires Inv(s)
    ensures Inv(Step(s, action))
  {
    match action
    case NextFile(i) => NextFileInv(s, i);
    case CommitRun(i, replyLost) => CommitInv(s, i, replyLost);
    case _ =>
  }

  lemma {:induction false} RunInv(s: State, actions: seq<Action>)
    requires Inv(s)
    ensures Inv(Run(s, actions))
  {
    if actions != [] {
      RunInv(s, actions[..|actions| - 1]);
      StepInv(Run(s, actions[..|actions| - 1]), actions[|actions| - 1]);
    }
  }

  lemma {:induction false} SerialOnceEach(history: seq<seq<Entry>>)
    ensures OnceEach(Serial(history))
  {
    if history != [] {
      SerialOnceEach(history[..|history| - 1]);
      MigrateMeaning(Serial(history[..|history| - 1]), history[|history| - 1]);
    }
  }

  /** However instances start, fail and interleave, the database is what the committed runs
      make of it one after the other, and each file's effect is committed at most once. */
  lemma InstancesAreSerial(instances: nat, actions: seq<Action>)
    ensures var s := Run(NoneRunning(instances), actions);
            s.db == Serial(s.history) && OnceEach(s.db)
  {
    RunInv(NoneRunning(instances), actions);
    SerialOnceEach(Run(NoneRunning(instances), actions).history);
  }

  lemma OthersLeaveDb(s: State, action: Action)
    requires !action.CommitRun?
    ensures Step(s, action).db == s.db
  {
  }

  /** The database stays, or a whole run is committed and every file it ships is recorded. */
  ghost predicate ChangesByRun(s: State, action: Action) {
    if !action.CommitRun? || Step(s, action) == s then Step(s, action).db == s.db
    else
      && action.i < |s.instances| && s.instances[action.i].Working?
      && Step(s, action).db == Migrate(s.db, s.instances[action.i].entries)
      && AppliesMissing(s.db, Step(s, action).db, s.instances[action.i].entries)
      && Step(s, action).instances[action.i] == Finished(!action.replyLost)
  }

  lemma StepChangesByRun(s: State, action: Action)
    requires Inv(s)
    ensures ChangesByRun(s, action)
  {
    if !action.CommitRun? {
      OthersLeaveDb(s, action);
    } else if Step(s, action) != s {
      CommitChanges(s, action.i, action.replyLost);
    }
  }

  lemma CommitChanges(s: State, i: nat, replyLost: bool)
    requires Inv(s) && Step(s, CommitRun(i, replyLost)) != s
    ensures ChangesByRun(s, CommitRun(i, replyLost))
  {
    CommitMigrates(s, i, replyLost);
    MigrateApplies(s.db, s.instances[i].entries);
  }

  /** No step but a commit changes the database; a commit, even one whose reply is lost, has
      the effect of a whole run by itself. */
  lemma OnlyCommitsChange(instances: nat, actions: seq<Action>, action: Action)
    ensures ChangesByRun(Run(NoneRunning(instances), actions), action)
  {
    RunInv(NoneRunning(instances), actions);
    StepChangesByRun(Run(NoneRunning(instances), actions), action);
  }

  /** What is recorded stays recorded, whatever releases start or fail later. */
  lemma {:induction false} RecordedStays(s: State, more: seq<Action>)
    ensures s.db.recorded <= Run(s, more).db.recorded && s.db.executed <= Run(s, more).db.executed
  {
    if more != [] {
      RecordedStays(s, more[..|more| - 1]);
    }
  }

  // ----- What an instance ships, and that it gets its turn -----

  predicate IsRunning(instance: Instance) {
    instance.Waiting? || instance.Working?
  }

  /** The files the last call of instance i was started with. */
  function LastStarted(instances: nat, actions: seq<Action>, i: nat): Option<seq<Entry>> {
    if actions == [] then None
    else
      var front, last := actions[..|actions| - 1], actions[|actions| - 1];
      var s := Run(NoneRunning(instances), front);
      if last.Start? && last.i == i < |s.instances| && !IsRunning(s.instances[i]) then Some(last.entries)
      else LastStarted(instances, front, i)
  }

  lemma StepShips(s: State, action: Action, i: nat)
    requires i < |s.instances| && IsRunning(Step(s, action).instances[i])
    ensures |Step(s, action).instances| == |s.instances|
    ensures if action.Start? && action.i == i && !IsRunning(s.instances[i])
            then Step(s, action).instances[i].entries == action.entries
            else IsRunning(s.instances[i]) && Step(s, action).instances[i].entries == s.instances[i].entries
  {
  }

  lemma {:induction false} SameInstances(instances: nat, actions: seq<Action>)
    ensures |Run(NoneRunning(instances), actions).instances| == instances
  {
    if actions != [] {
      SameInstances(instances, actions[..|actions| - 1]);
    }
  }

  /** A running instance works on the files it was started with. */
  lemma {:induction false} ShipsWhatItStartedWith(instances: nat, actions: seq<Action>, i: nat)
    requires i < instances
    ensures var s := Run(NoneRunning(instances), actions);
            && i < |s.instances|
            && (s.instances[i].Waiting? || s.instances[i].Working? ==>
                  LastStarted(instances, actions, i) == Some(s.instances[i].entries))
  {
    SameInstances(instances, actions);
    if actions != [] {
      var front, last := actions[..|actions| - 1], actions[|actions| - 1];
      ShipsWhatItStartedWith(instances, front, i);
      if IsRunning(Run(NoneRunning(instances), actions).instances[i]) {
        StepShips(Run(NoneRunning(instances), front), last, i);
      }
    }
  }

  /** Whatever runs, running instances can fail: the call reports it, releases the lock if it had
      it, and leaves the database alone. */
  lemma FailureRollsBack(s: State, i: nat)
    requires i < |s.instances| && (s.instances[i].Waiting? || s.instances[i].Working?)
    ensures var after := Step(s, Fail(i));
            && after.instances == s.instances[i := Finished(false)] && after.db == s.db && after.history == s.history
            && after.lock == if s.lock == Some(i) then None else s.lock
  {
  }

  ghost predicate AreRecorded(db: Db, entries: Option<seq<Entry>>) {
    entries.Some? && forall name :: IsShipped(entries.value, name) ==> name in db.recorded
  }

  lemma StepKeepsRecorded(s: State, action: Action, i: nat)
    requires i < |s.instances| && Step(s, action).instances[i] == Finished(true)
    requires !(action.CommitRun? && action.i == i && s.instances[i].Working?)
    ensures s.instances[i] == Finished(true) && s.db.recorded <= Step(s, action).db.recorded
    ensures !(action.Start? && action.i == i)
  {
  }

  lemma CommitRecords(s: State, i: nat, replyLost: bool)
    requires Inv(s) && i < |s.instances| && s.instances[i].Working?
    requires s.instances[i].done >= |ShippedNames(s.instances[i].entries)|
    ensures AreRecorded(Step(s, CommitRun(i, replyLost)).db, Some(s.instances[i].entries))
  {
    CommitMigrates(s, i, replyLost);
    MigrateApplies(s.db, s.instances[i].entries);
  }

  /** A call that reported success has every file it ships recorded, whatever has run since. */
  lemma {:induction false} SuccessMeansRecorded(instances: nat, actions: seq<Action>, i: nat)
    requires i < instances
    ensures var s := Run(NoneRunning(instances), actions);
            i < |s.instances| && (s.instances[i] == Finished(true) ==> AreRecorded(s.db, LastStarted(instances, actions, i)))
  {
    SameInstances(instances, actions);
    if actions != [] && Run(NoneRunning(instances), actions).instances[i] == Finished(true) {
      var front, last := actions[..|actions| - 1], actions[|actions| - 1];
      var s := Run(NoneRunning(instances), front);
      SameInstances(instances, front);
      if last.CommitRun? && last.i == i && s.instances[i].Working? {
        RunInv(NoneRunning(instances), front);
        ShipsWhatItStartedWith(instances, front, i);
        CommitRecords(s, i, last.replyLost);
      } else {
        SuccessMeansRecorded(instances, front, i);
        StepKeepsRecorded(s, last, i);
      }
    }
  }

  /** The lock is held by an instance at work, or free. */
  lemma {:induction false} LockIsReleased(instances: nat, actions: seq<Action>)
    ensures var s := Run(NoneRunning(instances), actions);
            s.lock.Some? ==> s.lock.value < |s.instances| && s.instances[s.lock.value].Working?
  {
    if actions != [] {
      LockIsReleased(instances, actions[..|actions| - 1]);
    }
  }

  /** No deadlock: while an instance is running, some instance can take its lock, its next file
      or its commit. */
  lemma SomeoneMovesOn(instances: nat, actions: seq<Action>, i: nat) returns (action: Action)
    requires var s := Run(NoneRunning(instances), actions);
             i < |s.instances| && (s.instances[i].Waiting? || s.instances[i].Working?)
    ensures action.Lock? || action.NextFile? || action.CommitRun?
    ensures Step(Run(NoneRunning(instances), actions), action) != Run(NoneRunning(instances), actions)
  {
    var s := Run(NoneRunning(instances), actions);
    LockIsReleased(instances, actions);
    action := NextStep(s, if s.instances[i].Working? then i else if s.lock.Some? then s.lock.value else i);
  }

  /** A working instance goes on, and a waiting one when the lock is free. */
  lemma NextStep(s: State, i: nat) returns (action: Action)
    requires i < |s.instances| && (s.instances[i].Working? || (s.instances[i].Waiting? && s.lock.None?))
    ensures action.Lock? || action.NextFile? || action.CommitRun?
    ensures Step(s, action) != s
  {
    var me := s.instances[i];
    if me.Waiting? {
      action := Lock(i);
      assert Step(s, action).instances[i].Working?;
    } else if me.done < |ShippedNames(me.entries)| {
      action := NextFile(i);
      assert Step(s, action).instances[i].done == me.done + 1;
    } else {
      action := CommitRun(i, false);
      assert Step(s, action).instances[i].Finished?;
    }
  }
}
