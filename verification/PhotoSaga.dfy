/** Upload and Delete across the object store and the photo table, either of which may fail
    or lose its reply at any call. */
module PhotoSaga {
  import opened Common
  import opened PhotoStore

  /** Fine: done. Lost: not done, reported as failed. Unheard: done, reported as failed. */
  datatype Fault = Fine | Lost | Unheard

  /** objects are the keys in the object store, used those drawn for uploads so far. */
  datatype State = State(table: Table, objects: set<string>, used: set<string>)

  const START := State(EMPTY, {}, {})

  /** Key is the object key drawn for the upload; valid tells whether type and size pass. */
  datatype Op =
    | Upload(user: int, key: string, valid: bool, put: Fault, save: Fault, cleanup: Fault)
    | Delete(user: int, id: int, read: Fault, remove: Fault, erase: Fault)
    | Register(user: int)

  datatype ServiceError = InvalidPhoto | InvalidPhotoId | StorageFailed | Metadata(error: PhotoError)

  function Keys(rows: seq<Photo>): set<string> {
    set i | 0 <= i < |rows| :: rows[i].key
  }

  /** The metadata save: the row as stored, and what the caller is told. */
  function SaveStep(t: Table, user: int, key: string, save: Fault): (Table, Result<Photo, PhotoError>) {
    match save
    case Fine => CreateTx(t, user, key)
    case Lost => (t, Failure(StoreFailed))
    case Unheard => (CreateTx(t, user, key).0, Failure(StoreFailed))
  }

  /** Whether a save reported as failed has stored the row. */
  predicate SavedUnheard(t: Table, user: int, key: string, save: Fault) {
    save.Unheard? && CreateTx(t, user, key).1.Success?
  }

  /** An upload that got as far as the object store. */
  function UploadStep(s: State, op: Op): (State, Result<Photo, ServiceError>)
    requires op.Upload?
  {
    var drawn := s.(used := s.used + {op.key});
    var (table, saved) := SaveStep(s.table, op.user, op.key, op.save);
    if op.put.Lost? then (drawn, Failure(StorageFailed))
    else
      var stored := drawn.(objects := s.objects + {op.key});
      if op.put.Unheard? then (stored, Failure(StorageFailed))
      else if saved.Success? then (stored.(table := table), Success(saved.value))
      else
        // compensation: remove the object again
        var after := stored.(table := table);
        (if op.cleanup.Lost? then after else after.(objects := stored.objects - {op.key}), Failure(Metadata(saved.error)))
  }

  predicate IsStored(t: Table, user: int, id: int) {
    exists i :: 0 <= i < |t.rows| && IsPhotoOf(t.rows[i], user, id)
  }

  function Find(rows: seq<Photo>, user: int, id: int): (photo: Photo)
    requires exists i :: 0 <= i < |rows| && IsPhotoOf(rows[i], user, id)
    ensures photo in rows && IsPhotoOf(photo, user, id)
  {
    var last := |rows| - 1;
    if IsPhotoOf(rows[last], user, id) then rows[last] else Find(rows[..last], user, id)
  }

  /** A deletion of a photo that was found. */
  function DeleteStep(s: State, op: Op): (State, Result<(), ServiceError>)
    requires op.Delete? && IsStored(s.table, op.user, op.id)
  {
    var key := Find(s.table.rows, op.user, op.id).key;
    var erased := DeleteTx(s.table, op.user, op.id).0;
    if op.remove.Lost? then (s, Failure(StorageFailed))
    else
      var removed := s.(objects := s.objects - {key});
      if op.remove.Unheard? then (removed, Failure(StorageFailed))
      else if op.erase.Lost? then (removed, Failure(Metadata(StoreFailed)))
      else (removed.(table := erased), if op.erase.Fine? then Success(()) else Failure(Metadata(StoreFailed)))
  }

  function UploadCall(s: State, op: Op): (State, Result<Photo, ServiceError>)
    requires op.Upload?
  {
    if !op.valid then (s, Failure(InvalidPhoto)) else UploadStep(s, op)
  }

  function DeleteCall(s: State, op: Op): (State, Result<(), ServiceError>)
    requires op.Delete?
  {
    if op.id <= 0 then (s, Failure(InvalidPhotoId))
    else if !op.read.Fine? then (s, Failure(Metadata(StoreFailed)))
    else if !IsStored(s.table, op.user, op.id) then (s, Failure(Metadata(PhotoNotFound)))
    else DeleteStep(s, op)
  }

  /** Keys are fresh: an upload that would draw a used key is not a step. */
  function Step(s: State, op: Op): State {
    match op
    case Upload(_, key, _, _, _, _) => if key in s.used then s else UploadCall(s, op).0
    case Delete(_, _, _, _, _) => DeleteCall(s, op).0
    case Register(user) => s.(table := PhotoStore.Apply(s.table, PhotoStore.Register(user)))
  }

  function Run(s: State, ops: seq<Op>): State {
    if ops == [] then s else Step(Run(s, ops[..|ops| - 1]), ops[|ops| - 1])
  }

  // ----- Accounting -----

  /** Objects without a row, and keys of rows without their object. */
  function Orphans(s: State): set<string> {
    s.objects - Keys(s.table.rows)
  }

  function Dangling(s: State): set<string> {
    Keys(s.table.rows) - s.objects
  }

  ghost predicate Inv(s: State) {
    PhotoStore.Inv(s.table) && Keys(s.table.rows) + s.objects <= s.used
  }

  lemma KeysSnoc(rows: seq<Photo>, photo: Photo)
    ensures Keys(rows + [photo]) == Keys(rows) + {photo.key}
  {
    forall k | k in Keys(rows) + {photo.key}
      ensures k in Keys(rows + [photo])
    {
      if k == photo.key {
        assert (rows + [photo])[|rows|].key == k;
      } else {
        var i :| 0 <= i < |rows| && rows[i].key == k;
        assert (rows + [photo])[i].key == k;
      }
    }
  }

  lemma CreateKeys(t: Table, user: int, key: string)
    requires PhotoStore.Inv(t)
    ensures PhotoStore.Inv(CreateTx(t, user, key).0)
    ensures Keys(CreateTx(t, user, key).0.rows) == Keys(t.rows) + if CreateTx(t, user, key).1.Success? then {key} else {}
  {
    CreateInv(t, user, key);
    KeysSnoc(t.rows, NewPhoto(t, user, key));
  }

  lemma KeysMember(rows: seq<Photo>, k: string)
    ensures k in Keys(rows) <==> exists p :: p in rows && p.key == k
  {
    if k in Keys(rows) {
      var i :| 0 <= i < |rows| && rows[i].key == k;
      assert rows[i] in rows;
    }
  }

  /** Erasing a photo's row erases its key and no other. */
  lemma EraseKeys(t: Table, user: int, id: int)
    requires PhotoStore.Inv(t) && IsStored(t, user, id)
    ensures PhotoStore.Inv(DeleteTx(t, user, id).0)
    ensures Keys(Without(t.rows, user, id)) == Keys(t.rows) - {Find(t.rows, user, id).key}
    ensures Find(t.rows, user, id).key in Keys(t.rows)
  {
    var photo := Find(t.rows, user, id);
    PhotoStore.DeleteInv(t, user, id);
    WithoutMeaning(t.rows, user, id);
    KeysMember(t.rows, photo.key);
    forall k ensures k in Keys(Without(t.rows, user, id)) <==> k in Keys(t.rows) && k != photo.key {
      KeysMember(t.rows, k);
      KeysMember(Without(t.rows, user, id), k);
      forall p | p in t.rows
        ensures IsPhotoOf(p, user, id) <==> p.key == photo.key
      {
        OnePhotoPerKey(t, p, photo);
      }
    }
  }

  lemma OnePhotoPerKey(t: Table, p: Photo, q: Photo)
    requires PhotoStore.Inv(t) && p in t.rows && q in t.rows
    ensures p.key == q.key <==> p == q
    ensures p.id == q.id <==> p == q
  {
    var i :| 0 <= i < |t.rows| && t.rows[i] == p;
    var j :| 0 <= j < |t.rows| && t.rows[j] == q;
    if i < j {
      assert Follows(p, q);
    } else if j < i {
      assert Follows(q, p);
    }
  }

  lemma OnePhotoPerId(t: Table, id: int)
    requires PhotoStore.Inv(t)
    ensures forall p, q :: p in t.rows && q in t.rows && p.id == id && q.id == id ==> p == q
  {
    forall p, q | p in t.rows && q in t.rows && p.id == id && q.id == id
      ensures p == q
    {
      OnePhotoPerKey(t, p, q);
    }
  }

  /** The call is an upload that leaves its object behind: the object store has it although
      it reported a failure, or the row was refused and the cleanup failed. */
  predicate OrphansAt(s: State, op: Op, key: string) {
    && op.Upload? && op.key == key && op.valid && key !in s.used
    && (op.put.Unheard? ||
        (op.put.Fine? && SaveStep(s.table, op.user, key, op.save).1.Failure?
         && !SavedUnheard(s.table, op.user, key, op.save) && op.cleanup.Lost?))
  }

  /** The call takes the object of a row and leaves the row: an upload cleaned up although its
      row was stored, or a deletion got no further than the object. */
  predicate StrandsAt(s: State, op: Op, key: string) {
    match op
    case Upload(user, k, valid, put, save, cleanup) =>
      k == key && valid && key !in s.used && put.Fine? && SavedUnheard(s.table, user, key, save) && !cleanup.Lost?
    case Delete(user, id, read, remove, erase) =>
      && id > 0 && read.Fine? && IsStored(s.table, user, id) && Find(s.table.rows, user, id).key == key
      && (remove.Unheard? || (remove.Fine? && erase.Lost?))
    case Register(_) => false
  }

  /** How one call moves the two kinds of strays, key by key; no key once drawn gets a row later. */
  ghost predicate StraysMove(s: State, op: Op, after: State, key: string) {
    && (key in Orphans(after) <==> key in Orphans(s) || OrphansAt(s, op, key))
    && (key in Dangling(after) <==> key in Keys(after.table.rows) && (key in Dangling(s) || StrandsAt(s, op, key)))
    && (key in Keys(after.table.rows) && key in s.used ==> key in Keys(s.table.rows))
    && (StrandsAt(s, op, key) ==> key in after.used)
  }

  /** The rows after the metadata save of an upload. */
  lemma SavedKeys(s: State, op: Op)
    requires Inv(s) && op.Upload?
    ensures var (table, r) := SaveStep(s.table, op.user, op.key, op.save);
            && PhotoStore.Inv(table)
            && Keys(table.rows) == Keys(s.table.rows)
                 + (if r.Success? || SavedUnheard(s.table, op.user, op.key, op.save) then {op.key} else {})
  {
    CreateKeys(s.table, op.user, op.key);
    assert Keys(s.table.rows) + {} == Keys(s.table.rows);
  }

  lemma UploadInv(s: State, op: Op)
    requires Inv(s) && op.Upload?
    ensures Inv(UploadStep(s, op).0) && s.used <= UploadStep(s, op).0.used
  {
    SavedKeys(s, op);
    var after := UploadStep(s, op).0;
    assert after.used == s.used + {op.key} && after.objects <= s.objects + {op.key};
    assert after.table == s.table || after.table == SaveStep(s.table, op.user, op.key, op.save).0;
  }

  /** The key of the upload, and every other key. */
  lemma UploadMovesOwn(s: State, op: Op)
    requires Inv(s) && op.Upload? && op.valid && op.key !in s.used
    ensures StraysMove(s, op, UploadStep(s, op).0, op.key)
  {
    SavedKeys(s, op);
  }

  lemma UploadMovesOther(s: State, op: Op, key: string)
    requires Inv(s) && op.Upload? && op.valid && op.key !in s.used && key != op.key
    ensures StraysMove(s, op, UploadStep(s, op).0, key)
  {
    SavedKeys(s, op);
    var after := UploadStep(s, op).0;
    assert key in after.objects <==> key in s.objects;
    assert key in Keys(after.table.rows) <==> key in Keys(s.table.rows);
  }

  lemma DeleteInv(s: State, op: Op)
    requires Inv(s) && op.Delete? && IsStored(s.table, op.user, op.id)
    ensures Inv(DeleteStep(s, op).0) && s.used <= DeleteStep(s, op).0.used
  {
    EraseKeys(s.table, op.user, op.id);
  }

  lemma DeleteMoves(s: State, op: Op, key: string)
    requires Inv(s) && op.Delete? && op.id > 0 && op.read.Fine? && IsStored(s.table, op.user, op.id)
    ensures StraysMove(s, op, DeleteStep(s, op).0, key)
  {
    EraseKeys(s.table, op.user, op.id);
  }

  lemma StepInv(s: State, op: Op)
    requires Inv(s)
    ensures Inv(Step(s, op)) && s.used <= Step(s, op).used
  {
    if op.Upload? {
      UploadInv(s, op);
    } else if op.Delete? && IsStored(s.table, op.user, op.id) {
      DeleteInv(s, op);
    }
  }

  lemma StepMoves(s: State, op: Op, key: string)
    requires Inv(s)
    ensures StraysMove(s, op, Step(s, op), key)
  {
    if op.Upload? && op.valid && op.key !in s.used {
      if key == op.key {
        UploadMovesOwn(s, op);
      } else {
        UploadMovesOther(s, op, key);
      }
    } else if op.Delete? && op.id > 0 && op.read.Fine? && IsStored(s.table, op.user, op.id) {
      DeleteMoves(s, op, key);
    }
  }

  lemma {:induction false} RunInv(s: State, ops: seq<Op>)
    requires Inv(s)
    ensures Inv(Run(s, ops))
  {
    if ops != [] {
      RunInv(s, ops[..|ops| - 1]);
      StepInv(Run(s, ops[..|ops| - 1]), ops[|ops| - 1]);
    }
  }

  // ----- Told from the log -----

  ghost predicate Orphaned(ops: seq<Op>, key: string) {
    exists i :: 0 <= i < |ops| && OrphansAt(Run(START, ops[..i]), ops[i], key)
  }

  ghost predicate Stranded(ops: seq<Op>, key: string) {
    exists i :: 0 <= i < |ops| && StrandsAt(Run(START, ops[..i]), ops[i], key)
  }

  lemma OrphanedStep(ops: seq<Op>, op: Op, key: string)
    ensures Orphaned(ops + [op], key) <==> Orphaned(ops, key) || OrphansAt(Run(START, ops), op, key)
  {
    var all := ops + [op];
    assert forall i :: 0 <= i <= |ops| ==> all[..i] == ops[..i];
    assert ops[..|ops|] == ops;
    if Orphaned(ops, key) {
      var i :| 0 <= i < |ops| && OrphansAt(Run(START, ops[..i]), ops[i], key);
      assert OrphansAt(Run(START, all[..i]), all[i], key);
    }
    if OrphansAt(Run(START, ops), op, key) {
      assert OrphansAt(Run(START, all[..|ops|]), all[|ops|], key);
    }
  }

  lemma StrandedStep(ops: seq<Op>, op: Op, key: string)
    ensures Stranded(ops + [op], key) <==> Stranded(ops, key) || StrandsAt(Run(START, ops), op, key)
  {
    var all := ops + [op];
    assert forall i :: 0 <= i <= |ops| ==> all[..i] == ops[..i];
    assert ops[..|ops|] == ops;
    if Stranded(ops, key) {
      var i :| 0 <= i < |ops| && StrandsAt(Run(START, ops[..i]), ops[i], key);
      assert StrandsAt(Run(START, all[..i]), all[i], key);
    }
    if StrandsAt(Run(START, ops), op, key) {
      assert StrandsAt(Run(START, all[..|ops|]), all[|ops|], key);
    }
  }

  lemma {:induction false} StraysFromLog(ops: seq<Op>, key: string)
    ensures var s := Run(START, ops);
            && Inv(s)
            && (key in Orphans(s) <==> Orphaned(ops, key))
            && (key in Dangling(s) <==> key in Keys(s.table.rows) && Stranded(ops, key))
            && (Stranded(ops, key) ==> key in s.used)
  {
    if ops != [] {
      var front, op := ops[..|ops| - 1], ops[|ops| - 1];
      assert ops == front + [op];
      StraysFromLog(front, key);
      StepInv(Run(START, front), op);
      StepMoves(Run(START, front), op, key);
      OrphanedStep(front, op, key);
      StrandedStep(front, op, key);
    }
  }

  /** Whatever fails: an object is there exactly when it is the object of a row that no call
      stranded, or an upload orphaned it; an orphaned key never has a row. */
  lemma SagaAccounting(ops: seq<Op>, key: string)
    ensures var s := Run(START, ops);
            && (key in s.objects <==> (key in Keys(s.table.rows) && !Stranded(ops, key)) || Orphaned(ops, key))
            && (Orphaned(ops, key) ==> key !in Keys(s.table.rows))
  {
    StraysFromLog(ops, key);
  }

  predicate IsFaultFree(op: Op) {
    match op
    case Upload(_, _, _, put, save, cleanup) => put.Fine? && save.Fine? && cleanup.Fine?
    case Delete(_, _, read, remove, erase) => read.Fine? && remove.Fine? && erase.Fine?
    case Register(_) => true
  }

  /** Without faults objects and rows agree, refused saves included: the compensation works. */
  lemma FaultFreeStoresAgree(ops: seq<Op>)
    requires forall k :: 0 <= k < |ops| ==> IsFaultFree(ops[k])
    ensures Run(START, ops).objects == Keys(Run(START, ops).table.rows)
  {
    forall key
      ensures key in Run(START, ops).objects <==> key in Keys(Run(START, ops).table.rows)
    {
      SagaAccounting(ops, key);
      assert forall i :: 0 <= i < |ops| ==> IsFaultFree(ops[i]);
    }
  }

  /** A retried deletion without faults removes row and object, whether or not an earlier
      attempt had already removed the object. */
  lemma RetriedDeleteRemoves(ops: seq<Op>, user: int, id: int)
    requires id > 0 && IsStored(Run(START, ops).table, user, id)
    ensures var s := Run(START, ops);
            var key := Find(s.table.rows, user, id).key;
            var (after, r) := DeleteCall(s, Op.Delete(user, id, Fine, Fine, Fine));
            && r == Success(())
            && !IsStored(after.table, user, id)
            && Keys(after.table.rows) == Keys(s.table.rows) - {key}
            && after.objects == s.objects - {key} && Orphans(after) == Orphans(s)
  {
    var s := Run(START, ops);
    RunInv(START, ops);
    EraseKeys(s.table, user, id);
    WithoutMeaning(s.table.rows, user, id);
    var rest := Without(s.table.rows, user, id);
    forall i | 0 <= i < |rest|
      ensures !IsPhotoOf(rest[i], user, id)
    {
      assert rest[i] in rest;
    }
  }

  /** An orphan is out of reach: no call ever removes it. */
  lemma {:induction false} OrphansStay(s: State, more: seq<Op>)
    requires Inv(s)
    ensures Orphans(s) <= Orphans(Run(s, more))
  {
    if more != [] {
      OrphansStay(s, more[..|more| - 1]);
      RunInv(s, more[..|more| - 1]);
      forall key | key in Orphans(s)
        ensures key in Orphans(Run(s, more))
      {
        StepMoves(Run(s, more[..|more| - 1]), more[|more| - 1], key);
      }
    }
  }

  // ----- The service -----

  class ObjectStore {
    var objects: set<string>

    constructor ()
      ensures objects == {}
    {
      objects := {};
    }

    method Put(key: string, fault: Fault) returns (ok: bool)
      modifies this
      ensures ok == fault.Fine?
      ensures objects == if fault.Lost? then old(objects) else old(objects) + {key}
    {
      if !fault.Lost? {
        objects := objects + {key};
      }
      return fault.Fine?;
    }

    /** Deleting a missing object succeeds. */
    method Delete(key: string, fault: Fault) returns (ok: bool)
      modifies this
      ensures ok == fault.Fine?
      ensures objects == if fault.Lost? then old(objects) else old(objects) - {key}
    {
      if !fault.Lost? {
        objects := objects - {key};
      }
      return fault.Fine?;
    }
  }

  class PhotoService {
    const repository: PhotoRepository
    const storage: ObjectStore
    ghost var used: set<string>

    ghost function Now(): State
      reads this, repository, storage
    {
      State(repository.Now(), storage.objects, used)
    }

    constructor (repository: PhotoRepository, storage: ObjectStore)
      ensures this.repository == repository && this.storage == storage
      ensures used == {}
    {
      this.repository, this.storage := repository, storage;
      used := {};
    }

    /** The repository call, with its faults. */
    method Save(user: int, key: string, fault: Fault) returns (r: Result<Photo, PhotoError>)
      modifies repository
      ensures (repository.Now(), r) == SaveStep(old(repository.Now()), user, key, fault)
      ensures !fault.Fine? ==> r == Failure(StoreFailed)
      ensures fault.Lost? ==> repository.Now() == old(repository.Now())
      ensures r.Success? ==> r.value.user == user && r.value.key == key && repository.rows == old(repository.rows) + [r.value]
    {
      if fault.Lost? {
        return Failure(StoreFailed);
      }
      r := repository.Create(user, key);
      if fault.Unheard? {
        return Failure(StoreFailed);
      }
    }

    method Upload(user: int, key: string, valid: bool, put: Fault, save: Fault, cleanup: Fault)
      returns (r: Result<Photo, ServiceError>)
      modifies this, repository, storage
      ensures (Now(), r) == UploadCall(old(Now()), Op.Upload(user, key, valid, put, save, cleanup))
      ensures !valid ==> r == Failure(InvalidPhoto) && Now() == old(Now())
      ensures valid && !put.Fine? ==>
                && r == Failure(StorageFailed) && repository.Now() == old(repository.Now())
                && storage.objects == (if put.Lost? then old(storage.objects) else old(storage.objects) + {key})
      ensures valid && put.Fine? ==> (r.Success? || r.error.Metadata?) && (!save.Fine? ==> r == Failure(Metadata(StoreFailed)))
      ensures r.Success? ==>
                && storage.objects == old(storage.objects) + {key} && r.value.user == user && r.value.key == key
                && repository.rows == old(repository.rows) + [r.value]
      ensures valid && put.Fine? && r.Failure? ==>
                && storage.objects == (if cleanup.Lost? then old(storage.objects) + {key} else old(storage.objects) - {key})
                && (save.Lost? ==> repository.rows == old(repository.rows))
    {
      if !valid {
        return Failure(InvalidPhoto);
      }
      used := used + {key};
      var ok := storage.Put(key, put);
      if !ok {
        return Failure(StorageFailed);
      }
      var photo := Save(user, key, save);
      if photo.Success? {
        return Success(photo.value);
      }
      var cleaned := storage.Delete(key, cleanup);
      return Failure(Metadata(photo.error));
    }

    method Delete(user: int, id: int, read: Fault, remove: Fault, erase: Fault) returns (r: Result<(), ServiceError>)
      requires PhotoStore.Inv(repository.Now())
      modifies this, repository, storage
      ensures (Now(), r) == DeleteCall(old(Now()), Op.Delete(user, id, read, remove, erase))
      ensures id <= 0 ==> r == Failure(InvalidPhotoId) && Now() == old(Now())
      ensures id > 0 && !read.Fine? ==> r == Failure(Metadata(StoreFailed)) && Now() == old(Now())
      ensures id > 0 && read.Fine? && (forall p :: p in old(repository.rows) ==> !(p.user == user && p.id == id)) ==>
                r == Failure(Metadata(PhotoNotFound)) && Now() == old(Now())
      ensures forall p :: id > 0 && read.Fine? && p in old(repository.rows) && p.user == user && p.id == id ==>
                && storage.objects == (if remove.Lost? then old(storage.objects) else old(storage.objects) - {p.key})
                && (!remove.Fine? ==> r == Failure(StorageFailed) && repository.rows == old(repository.rows))
                && (remove.Fine? && erase.Lost? ==> repository.rows == old(repository.rows))
                && (remove.Fine? && !erase.Lost? ==> forall q :: q in repository.rows <==> q in old(repository.rows) && q != p)
                && (remove.Fine? ==> r == if erase.Fine? then Success(()) else Failure(Metadata(StoreFailed)))
    {
      if id <= 0 {
        return Failure(InvalidPhotoId);
      }
      if !read.Fine? {
        return Failure(Metadata(StoreFailed));
      }
      OnePhotoPerId(repository.Now(), id);
      var photo := repository.GetByID(user, id);
      if photo.Failure? {
        return Failure(Metadata(photo.error));
      }
      DeleteFinds(repository.rows, user, id);
      ghost var found := Find(repository.rows, user, id);
      OnePhotoPerKey(repository.Now(), photo.value, found);
      var ok := storage.Delete(photo.value.key, remove);
      if !ok {
        return Failure(StorageFailed);
      }
      if erase.Lost? {
        return Failure(Metadata(StoreFailed));
      }
      var erased := repository.Delete(user, id);
      return if erase.Fine? then Success(()) else Failure(Metadata(StoreFailed));
    }
  }
}
