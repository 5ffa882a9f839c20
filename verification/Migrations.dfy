/** ApplyMigrations: one transaction under an advisory lock that applies every shipped file
    that is not recorded yet, run by any number of instances. */
module Migrations {
  import opened Common

  datatype Entry = Entry(name: string, isDir: bool)

  /** recorded is schema_migrations; executed is history: the files whose effects are
      committed, in order of execution. */
  datatype Db = Db(hasTable: bool, recorded: set<string>, executed: seq<string>)

  const EMPTY := Db(false, {}, [])

  // ----- File names in order -----

  const SUFFIX := ".sql"

  predicate IsMigration(entry: Entry) {
    !entry.isDir && |entry.name| > 4 && entry.name[|entry.name| - 4..] == SUFFIX
  }

  function MigrationNames(entries: seq<Entry>): seq<string> {
    if entries == [] then []
    else
      var last := entries[|entries| - 1];
      MigrationNames(entries[..|entries| - 1]) + (if IsMigration(last) then [last.name] else [])
  }

  /** The order of sort.Strings. */
  predicate Precedes(a: string, b: string) {
    a == "" || (b != "" && (a[0] < b[0] || (a[0] == b[0] && Precedes(a[1..], b[1..]))))
  }

  /** a is a beginning of b, or has the smaller character where they first differ. */
  ghost predicate IsLexicallyFirst(a: string, b: string) {
    a <= b || exists k :: DiffersAt(a, b, k)
  }

  predicate DiffersAt(a: string, b: string, k: int) {
    0 <= k < |a| && k < |b| && a[..k] == b[..k] && a[k] < b[k]
  }

  lemma {:induction false} PrecedesMeaning(a: string, b: string)
    ensures Precedes(a, b) <==> IsLexicallyFirst(a, b)
  {
    if a != "" && b != "" && a[0] == b[0] {
      PrecedesMeaning(a[1..], b[1..]);
      FirstSame(a, b);
    } else if a != "" && b != "" && a[0] < b[0] {
      assert DiffersAt(a, b, 0);
    } else if a != "" && b != "" {
      assert forall k :: 0 < k < |a| && k < |b| ==> a[..k][0] != b[..k][0];
    }
  }

  /** A common first character changes nothing. */
  lemma FirstSame(a: string, b: string)
    requires a != "" && b != "" && a[0] == b[0]
    ensures IsLexicallyFirst(a, b) <==> IsLexicallyFirst(a[1..], b[1..])
  {
    assert a == [a[0]] + a[1..] && b == [b[0]] + b[1..];
    if k :| DiffersAt(a, b, k) {
      assert a[1..][..k - 1] == a[..k][1..] && b[1..][..k - 1] == b[..k][1..];
      assert DiffersAt(a[1..], b[1..], k - 1);
    }
    if k :| DiffersAt(a[1..], b[1..], k) {
      assert a[..k + 1] == [a[0]] + a[1..][..k] && b[..k + 1] == [b[0]] + b[1..][..k];
      assert DiffersAt(a, b, k + 1);
    }
  }

  lemma {:induction false} PrecedesTotal(a: string, b: string)
    ensures Precedes(a, b) || Precedes(b, a)
  {
    if a != "" && b != "" {
      PrecedesTotal(a[1..], b[1..]);
    }
  }

  lemma {:induction false} PrecedesTransitive(a: string, b: string, c: string)
    requires Precedes(a, b) && Precedes(b, c)
    ensures Precedes(a, c)
  {
    if a != "" && a[0] == b[0] == c[0] {
      PrecedesTransitive(a[1..], b[1..], c[1..]);
    }
  }

  lemma {:induction false} PrecedesAntisymmetric(a: string, b: string)
    requires Precedes(a, b) && Precedes(b, a)
    ensures a == b
  {
    if a != "" {
      PrecedesAntisymmetric(a[1..], b[1..]);
      assert a == [a[0]] + a[1..] && b == [b[0]] + b[1..];
    }
  }

  ghost predicate Sorted(names: seq<string>) {
    forall i, j :: 0 <= i < j < |names| ==> Precedes(names[i], names[j])
  }

  ghost predicate StrictlySorted(names: seq<string>) {
    forall i, j :: 0 <= i < j < |names| ==> Precedes(names[i], names[j]) && names[i] != names[j]
  }

  function Insert(name: string, names: seq<string>): (r: seq<string>)
    ensures multiset(r) == multiset(names) + multiset{name}
  {
    if names == [] then [name]
    else if Precedes(name, names[0]) then [name] + names
    else
      assert names == [names[0]] + names[1..];
      [names[0]] + Insert(name, names[1..])
  }

  function SortNames(names: seq<string>): (r: seq<string>)
    ensures multiset(r) == multiset(names)
  {
    if names == [] then []
    else
      assert names == [names[0]] + names[1..];
      Insert(names[0], SortNames(names[1..]))
  }

  /** Names in ascending order of their characters, none twice. */
  ghost predicate AscendsLexically(names: seq<string>) {
    forall i, j :: 0 <= i < j < |names| ==> IsLexicallyFirst(names[i], names[j]) && names[i] != names[j]
  }

  lemma StrictlySortedMeaning(names: seq<string>)
    requires StrictlySorted(names)
    ensures AscendsLexically(names)
  {
    forall i, j | 0 <= i < j < |names|
      ensures IsLexicallyFirst(names[i], names[j])
    {
      PrecedesMeaning(names[i], names[j]);
    }
  }

  lemma SameElements(a: seq<string>, b: seq<string>)
    requires multiset(a) == multiset(b)
    ensures forall x :: x in a <==> x in b
  {
    forall x ensures x in a <==> x in b {
      assert x in multiset(a) <==> x in multiset(b);
    }
  }

  lemma {:induction false} InsertSorted(name: string, names: seq<string>)
    requires Sorted(names)
    ensures Sorted(Insert(name, names))
  {
    if names != [] {
      if Precedes(name, names[0]) {
        forall j | 0 <= j < |names| ensures Precedes(name, names[j]) {
          if j > 0 {
            PrecedesTransitive(name, names[0], names[j]);
          }
        }
      } else {
        PrecedesTotal(name, names[0]);
        var rest := Insert(name, names[1..]);
        InsertSorted(name, names[1..]);
        forall j | 0 <= j < |rest| ensures Precedes(names[0], rest[j]) {
          assert rest[j] in multiset(rest);
          assert rest[j] == name || rest[j] in names[1..];
        }
      }
    }
  }

  lemma {:induction false} SortNamesSorts(names: seq<string>)
    ensures Sorted(SortNames(names))
  {
    if names != [] {
      SortNamesSorts(names[1..]);
      InsertSorted(names[0], SortNames(names[1..]));
    }
  }

  /** Sorting keeps the names and puts them in lexical order. */
  lemma SortNamesMeaning(names: seq<string>)
    ensures multiset(SortNames(names)) == multiset(names)
    ensures forall i, j :: 0 <= i < j < |SortNames(names)| ==> IsLexicallyFirst(SortNames(names)[i], SortNames(names)[j])
  {
    var sorted := SortNames(names);
    SortNamesSorts(names);
    forall i, j | 0 <= i < j < |sorted|
      ensures IsLexicallyFirst(sorted[i], sorted[j])
    {
      PrecedesMeaning(sorted[i], sorted[j]);
    }
  }

  /** The name of a shipped file, not a directory, that is more than an extension ".sql". */
  predicate IsShipped(entries: seq<Entry>, name: string) {
    |name| > 4 && name[|name| - 4..] == ['.', 's', 'q', 'l']
    && exists i :: 0 <= i < |entries| && !entries[i].isDir && entries[i].name == name
  }

  lemma {:induction false} MigrationNamesMeaning(entries: seq<Entry>, name: string)
    ensures name in MigrationNames(entries) <==> IsShipped(entries, name)
  {
    if entries != [] {
      var last := |entries| - 1;
      MigrationNamesMeaning(entries[..last], name);
      if i :| 0 <= i < last && !entries[..last][i].isDir && entries[..last][i].name == name {
        assert entries[i].name == name;
      }
      if i :| 0 <= i < last && !entries[i].isDir && entries[i].name == name {
        assert entries[..last][i].name == name;
      }
    }
  }

  function ShippedNames(entries: seq<Entry>): seq<string> {
    SortNames(MigrationNames(entries))
  }

  lemma {:induction false} ShippedNamesMeaning(entries: seq<Entry>)
    ensures Sorted(ShippedNames(entries))
    ensures forall name :: name in ShippedNames(entries) <==> name in MigrationNames(entries)
  {
    SortNamesSorts(MigrationNames(entries));
    SameElements(ShippedNames(entries), MigrationNames(entries));
  }

  // ----- One run -----

  /** The files a run executes: those not recorded, each once. */
  function NewNames(names: seq<string>, recorded: set<string>): seq<string> {
    if names == [] then []
    else
      var front, last := NewNames(names[..|names| - 1], recorded), names[|names| - 1];
      if last in recorded || last in front then front else front + [last]
  }

  function Elements(names: seq<string>): set<string> {
    set name | name in names
  }

  function Commit(db: Db, executed: seq<string>): Db {
    Db(true, db.recorded + Elements(executed), db.executed + executed)
  }

  /** A run that succeeds. */
  function Migrate(db: Db, entries: seq<Entry>): Db {
    Commit(db, NewNames(ShippedNames(entries), db.recorded))
  }

  lemma {:induction false} NewNamesMeaning(names: seq<string>, recorded: set<string>)
    ensures forall x :: x in NewNames(names, recorded) <==> x in names && x !in recorded
    ensures forall i, j :: 0 <= i < j < |NewNames(names, recorded)| ==> NewNames(names, recorded)[i] != NewNames(names, recorded)[j]
  {
    if names != [] {
      var last := |names| - 1;
      NewNamesMeaning(names[..last], recorded);
      assert names == names[..last] + [names[last]];
      var front := NewNames(names[..last], recorded);
      assert forall i :: 0 <= i < |front| ==> front[i] in front;
    }
  }

  lemma {:induction false} NewNamesSorted(names: seq<string>, recorded: set<string>)
    requires Sorted(names)
    ensures StrictlySorted(NewNames(names, recorded))
  {
    if names != [] {
      var last := |names| - 1;
      NewNamesSorted(names[..last], recorded);
      NewNamesMeaning(names[..last], recorded);
      var front := NewNames(names[..last], recorded);
      forall i | 0 <= i < |front|
        ensures Precedes(front[i], names[last]) && (names[last] !in front ==> front[i] != names[last])
      {
        assert front[i] in front;
        var j :| 0 <= j < last && names[j] == front[i];
      }
    }
  }

  /** Every committed effect is recorded and was committed once. */
  ghost predicate OnceEach(db: Db) {
    && (forall x :: x in db.recorded <==> x in db.executed)
    && (forall i, j :: 0 <= i < j < |db.executed| ==> db.executed[i] != db.executed[j])
    && (!db.hasTable ==> db.recorded == {})
  }

  lemma {:induction false} NothingNew(names: seq<string>, recorded: set<string>)
    requires forall x :: x in names ==> x in recorded
    ensures NewNames(names, recorded) == []
  {
    if names != [] {
      assert names[|names| - 1] in names;
      NothingNew(names[..|names| - 1], recorded);
    }
  }

  lemma CommitOnceEach(db: Db, added: seq<string>)
    requires OnceEach(db)
    requires forall x :: x in added ==> x !in db.recorded
    requires forall i, j :: 0 <= i < j < |added| ==> added[i] != added[j]
    ensures OnceEach(Commit(db, added))
  {
    assert forall i :: 0 <= i < |added| ==> added[i] in added;
    assert forall i :: 0 <= i < |db.executed| ==> db.executed[i] in db.executed;
  }

  /** From before to after exactly the shipped files that were not recorded have been executed,
      in lexical order, and are recorded. */
  ghost predicate AppliesMissing(before: Db, after: Db, entries: seq<Entry>) {
    && after.hasTable
    && (forall x :: x in after.recorded <==> x in before.recorded || IsShipped(entries, x))
    && before.executed <= after.executed
    && var added := after.executed[|before.executed|..];
       AscendsLexically(added) && forall x :: x in added <==> IsShipped(entries, x) && x !in before.recorded
  }

  lemma MigrateApplies(db: Db, entries: seq<Entry>)
    ensures AppliesMissing(db, Migrate(db, entries), entries)
  {
    var names := ShippedNames(entries);
    var added, after := NewNames(names, db.recorded), Migrate(db, entries);
    ShippedNamesMeaning(entries);
    NewNamesMeaning(names, db.recorded);
    NewNamesSorted(names, db.recorded);
    StrictlySortedMeaning(added);
    assert after.executed[|db.executed|..] == added;
    forall x
      ensures x in names <==> IsShipped(entries, x)
    {
      MigrationNamesMeaning(entries, x);
    }
  }

  /** A successful run leaves every shipped file recorded, executes the missing ones in
      name order, commits no effect twice, and running it again changes nothing. */
  lemma MigrateMeaning(db: Db, entries: seq<Entry>)
    requires OnceEach(db)
    ensures var after := Migrate(db, entries);
            && OnceEach(after)
            && AppliesMissing(db, after, entries)
            && Migrate(after, entries) == after
  {
    var names := ShippedNames(entries);
    var added, after := NewNames(names, db.recorded), Migrate(db, entries);
    MigrateApplies(db, entries);
    ShippedNamesMeaning(entries);
    NewNamesMeaning(names, db.recorded);
    CommitOnceEach(db, added);
    NothingNew(names, after.recorded);
    assert after.executed + [] == after.executed && after.recorded + Elements([]) == after.recorded;
  }

  // ----- ApplyMigrations -----

  datatype FileFault = Fine | CheckFails | ReadFails | ApplyFails | RecordFails

  datatype CommitFault = CommitFine | CommitFails | ReplyLost

  /** What goes wrong in one call; file faults are given by place in the sorted list. */
  datatype Faults = Faults(list: bool, begin: bool, lock: bool, table: bool, file: nat -> FileFault, commit: CommitFault)

  datatype MigrationError =
    | ListFailed | BeginFailed | LockFailed | TableFailed
    | FileFailed(fault: FileFault, name: string) | CommitFailed

  /** The error that ends the loop: of every file the check can fail, of new ones the rest. */
  function FirstFileError(names: seq<string>, recorded: set<string>, file: nat -> FileFault): (r: Option<MigrationError>)
    ensures r.Some? ==> r.value.FileFailed? && !r.value.fault.Fine? && r.value.name in names
  {
    if names == [] then None
    else
      var last := |names| - 1;
      var earlier := FirstFileError(names[..last], recorded, file);
      var skipped := names[last] in recorded || names[last] in NewNames(names[..last], recorded);
      if earlier.Some? then earlier
      else if file(last).Fine? || (skipped && !file(last).CheckFails?) then None
      else Some(FileFailed(file(last), names[last]))
  }

  /** The step at place k of the list goes wrong: the check, or for a file to be applied the rest. */
  predicate FailsAt(names: seq<string>, recorded: set<string>, file: nat -> FileFault, k: nat)
    requires k < |names|
  {
    file(k) == CheckFails || (file(k) != Fine && names[k] !in recorded && forall j :: 0 <= j < k ==> names[j] != names[k])
  }

  /** The error is that of the first place where something goes wrong. */
  ghost predicate IsFirstFault(names: seq<string>, recorded: set<string>, file: nat -> FileFault, error: Option<MigrationError>) {
    if error.None? then forall k: nat :: k < |names| ==> !FailsAt(names, recorded, file, k)
    else exists k: nat :: k < |names| && FailsAt(names, recorded, file, k)
                          && error == Some(FileFailed(file(k), names[k]))
                          && forall j: nat :: j < k ==> !FailsAt(names, recorded, file, j)
  }

  lemma FailsAtFront(names: seq<string>, recorded: set<string>, file: nat -> FileFault, k: nat)
    requires k < |names| - 1
    ensures FailsAt(names[..|names| - 1], recorded, file, k) <==> FailsAt(names, recorded, file, k)
  {
    assert forall j :: 0 <= j <= k ==> names[..|names| - 1][j] == names[j];
  }

  lemma FailsAtLast(names: seq<string>, recorded: set<string>, file: nat -> FileFault)
    requires names != []
    ensures var last := |names| - 1;
            var skipped := names[last] in recorded || names[last] in NewNames(names[..last], recorded);
            FailsAt(names, recorded, file, last) <==> !(file(last).Fine? || (skipped && !file(last).CheckFails?))
  {
    var last := |names| - 1;
    NewNamesMeaning(names[..last], recorded);
    assert names[last] in names[..last] <==> exists j :: 0 <= j < last && names[j] == names[last];
  }

  lemma {:induction false} FirstFileErrorMeaning(names: seq<string>, recorded: set<string>, file: nat -> FileFault)
    ensures IsFirstFault(names, recorded, file, FirstFileError(names, recorded, file))
  {
    if names != [] {
      var last := |names| - 1;
      var front, error := names[..last], FirstFileError(names, recorded, file);
      FirstFileErrorMeaning(front, recorded, file);
      FailsAtLast(names, recorded, file);
      forall k: nat | k < last
        ensures FailsAt(front, recorded, file, k) <==> FailsAt(names, recorded, file, k)
      {
        FailsAtFront(names, recorded, file, k);
      }
      if FirstFileError(front, recorded, file).Some? {
        var k: nat :| k < last && FailsAt(front, recorded, file, k) && error == Some(FileFailed(file(k), front[k]))
                      && forall j: nat :: j < k ==> !FailsAt(front, recorded, file, j);
        assert FailsAt(names, recorded, file, k) && front[k] == names[k];
      } else if error.Some? {
        assert FailsAt(names, recorded, file, last);
      }
    }
  }

  /** The error a call returns, if any. */
  function CallError(db: Db, entries: seq<Entry>, faults: Faults): Option<MigrationError> {
    var inFile := FirstFileError(ShippedNames(entries), db.recorded, faults.file);
    if faults.list then Some(ListFailed)
    else if faults.begin then Some(BeginFailed)
    else if faults.lock then Some(LockFailed)
    else if faults.table then Some(TableFailed)
    else if inFile.Some? then inFile
    else if faults.commit.CommitFine? then None else Some(CommitFailed)
  }

  lemma {:induction false} ErrorComesFirst(names: seq<string>, recorded: set<string>, file: nat -> FileFault, k: nat)
    requires k <= |names| && FirstFileError(names[..k], recorded, file).Some?
    ensures FirstFileError(names, recorded, file) == FirstFileError(names[..k], recorded, file)
    decreases |names|
  {
    if k < |names| {
      assert names[..|names| - 1][..k] == names[..k];
      ErrorComesFirst(names[..|names| - 1], recorded, file, k);
    } else {
      assert names[..k] == names;
    }
  }

  /** The database and its migrations table. */
  class MigratedDatabase {
    var hasTable: bool
    var recorded: set<string>
    var executed: seq<string>

    function Now(): Db
      reads this
    {
      Db(hasTable, recorded, executed)
    }

    constructor ()
      ensures Now() == EMPTY
    {
      hasTable, recorded, executed := false, {}, [];
    }

    /** The loop over the sorted names, inside the transaction: own is executed and recorded
        but not committed. */
    method ExecuteFiles(names: seq<string>, file: nat -> FileFault) returns (own: seq<string>, error: Option<MigrationError>)
      ensures error == FirstFileError(names, recorded, file)
      ensures error.None? ==> own == NewNames(names, recorded)
      ensures IsFirstFault(names, recorded, file, error)
    {
      FirstFileErrorMeaning(names, recorded, file);
      own := [];
      for i := 0 to |names|
        invariant own == NewNames(names[..i], recorded)
        invariant FirstFileError(names[..i], recorded, file).None?
      {
        assert names[..i + 1][..i] == names[..i];
        ghost var hit := FirstFileError(names[..i + 1], recorded, file);
        if hit.Some? {
          ErrorComesFirst(names, recorded, file, i + 1);
        }
        var name := names[i];
        var applied := name in recorded || name in own;
        if file(i).CheckFails? {
          return own, Some(FileFailed(CheckFails, name));
        }
        if applied {
          continue;
        }
        if !file(i).Fine? {
          return own, Some(FileFailed(file(i), name));
        }
        own := own + [name];
      }
      assert names[..|names|] == names;
      return own, None;
    }

    method CollectNames(entries: seq<Entry>) returns (names: seq<string>)
      ensures names == ShippedNames(entries)
      ensures forall name :: name in names <==> IsShipped(entries, name)
      ensures forall i, j :: 0 <= i < j < |names| ==> IsLexicallyFirst(names[i], names[j])
    {
      ShippedNamesMeaning(entries);
      SortNamesMeaning(MigrationNames(entries));
      forall name
        ensures name in ShippedNames(entries) <==> IsShipped(entries, name)
      {
        MigrationNamesMeaning(entries, name);
      }
      names := [];
      for i := 0 to |entries|
        invariant names == MigrationNames(entries[..i])
      {
        assert entries[..i + 1][..i] == entries[..i];
        if IsMigration(entries[i]) {
          names := names + [entries[i].name];
        }
      }
      assert entries[..|entries|] == entries;
      names := SortNames(names);
    }

    /** Success applies exactly the missing files; any reported error leaves the database
        alone, unless it is a commit that took effect and whose reply was lost. */
    method ApplyMigrations(entries: seq<Entry>, faults: Faults) returns (error: Option<MigrationError>)
      modifies this
      ensures error == CallError(old(Now()), entries, faults)
      ensures Now() == if error.None? || (error == Some(CommitFailed) && faults.commit.ReplyLost?)
                       then Migrate(old(Now()), entries) else old(Now())
      ensures error.None? ==> AppliesMissing(old(Now()), Now(), entries)
      ensures faults.list ==> error == Some(ListFailed)
      ensures !faults.list && faults.begin ==> error == Some(BeginFailed)
      ensures !faults.list && !faults.begin && faults.lock ==> error == Some(LockFailed)
      ensures !faults.list && !faults.begin && !faults.lock && faults.table ==> error == Some(TableFailed)
      ensures !faults.list && !faults.begin && !faults.lock && !faults.table ==>
                var inFile := if error == Some(CommitFailed) then None else error;
                && IsFirstFault(ShippedNames(entries), old(recorded), faults.file, inFile)
                && (inFile.None? ==> (error.None? <==> faults.commit == CommitFine))
    {
      MigrateApplies(old(Now()), entries);
      if faults.list {
        return Some(ListFailed);
      }
      var names := CollectNames(entries);
      if faults.begin {
        return Some(BeginFailed);
      }
      if faults.lock {
        return Some(LockFailed);
      }
      if faults.table {
        return Some(TableFailed);
      }
      var own, failure := ExecuteFiles(names, faults.file);
      if failure.Some? {
        return failure;
      }
      if faults.commit.CommitFails? {
        return Some(CommitFailed);
      }
      hasTable, recorded, executed := true, recorded + Elements(own), executed + own;
      return if faults.commit.CommitFine? then None else Some(CommitFailed);
    }
  }
}
