/** Photo rows: position and main-flag allocation, deletion and listing, one transaction at a time. */
module PhotoStore {
  import opened Common

  datatype Photo = Photo(id: int, user: int, key: string, position: int, isMain: bool)

  /** rows stand in creation order; nextId is the sequence behind the ids, which a failed
      insert uses up as well. */
  datatype Table = Table(users: set<int>, rows: seq<Photo>, nextId: int)

  datatype PhotoError = PositionOutOfRange | ConstraintViolation | PhotoNotFound | StoreFailed

  /** Largest value of Go's int16 and of Postgres SMALLINT. */
  const MAX_INT16: int := 32767

  /** COALESCE(MAX(position), -1) over the user's rows. */
  function MaxPosition(rows: seq<Photo>, user: int): int {
    if rows == [] then -1
    else
      var front, last := MaxPosition(rows[..|rows| - 1], user), rows[|rows| - 1];
      if last.user == user && last.position > front then last.position else front
  }

  predicate HasPhotos(rows: seq<Photo>, user: int) {
    exists i :: 0 <= i < |rows| && rows[i].user == user
  }

  /** The unique constraints a new row would break: object key, position, main photo. */
  predicate Collides(rows: seq<Photo>, photo: Photo) {
    exists i :: 0 <= i < |rows| && ClashesWith(rows[i], photo)
  }

  predicate ClashesWith(row: Photo, photo: Photo) {
    row.key == photo.key || (row.user == photo.user && (row.position == photo.position || (row.isMain && photo.isMain)))
  }

  function NewPhoto(t: Table, user: int, key: string): Photo {
    Photo(t.nextId, user, key, MaxPosition(t.rows, user) + 1, !HasPhotos(t.rows, user))
  }

  function CreateTx(t: Table, user: int, key: string): (Table, Result<Photo, PhotoError>) {
    var photo := NewPhoto(t, user, key);
    if photo.position > MAX_INT16 then (t, Failure(PositionOutOfRange))
    else if user !in t.users || Collides(t.rows, photo) then (t.(nextId := t.nextId + 1), Failure(ConstraintViolation))
    else (t.(rows := t.rows + [photo], nextId := t.nextId + 1), Success(photo))
  }

  predicate IsPhotoOf(photo: Photo, user: int, id: int) {
    photo.user == user && photo.id == id
  }

  function Without(rows: seq<Photo>, user: int, id: int): seq<Photo> {
    if rows == [] then []
    else
      var last := rows[|rows| - 1];
      Without(rows[..|rows| - 1], user, id) + (if IsPhotoOf(last, user, id) then [] else [last])
  }

  function DeleteTx(t: Table, user: int, id: int): (Table, Result<(), PhotoError>) {
    var rest := Without(t.rows, user, id);
    (t.(rows := rest), if |rest| == |t.rows| then Failure(PhotoNotFound) else Success(()))
  }

  // ----- Runs -----

  datatype Op =
    | Create(user: int, key: string)
    | Delete(user: int, id: int)
    | Register(user: int)

  function Apply(t: Table, op: Op): Table {
    match op
    case Create(user, key) => CreateTx(t, user, key).0
    case Delete(user, id) => DeleteTx(t, user, id).0
    case Register(user) => t.(users := t.users + {user})
  }

  function Run(t: Table, ops: seq<Op>): Table {
    if ops == [] then t else Apply(Run(t, ops[..|ops| - 1]), ops[|ops| - 1])
  }

  const EMPTY := Table({}, [], 1)

  /** A row created later has a larger id, another object key and, for the same user, a
      larger position. */
  predicate Follows(earlier: Photo, later: Photo) {
    earlier.id < later.id && earlier.key != later.key && (earlier.user == later.user ==> earlier.position < later.position)
  }

  ghost predicate InOrder(rows: seq<Photo>) {
    forall i, j :: 0 <= i < j < |rows| ==> Follows(rows[i], rows[j])
  }

  predicate IsWellPlaced(photo: Photo) {
    0 <= photo.position <= MAX_INT16 && (photo.isMain <==> photo.position == 0)
  }

  ghost predicate Inv(t: Table) {
    InOrder(t.rows) && 1 <= t.nextId
    && (forall i :: 0 <= i < |t.rows| ==> IsWellPlaced(t.rows[i]) && 1 <= t.rows[i].id < t.nextId)
  }

  lemma {:induction false} MaxPositionMeaning(rows: seq<Photo>, user: int)
    requires forall i :: 0 <= i < |rows| ==> rows[i].position >= 0
    ensures forall i :: 0 <= i < |rows| && rows[i].user == user ==> rows[i].position <= MaxPosition(rows, user)
    ensures HasPhotos(rows, user) <==> MaxPosition(rows, user) >= 0
    ensures MaxPosition(rows, user) >= -1
  {
    if rows != [] {
      var last := |rows| - 1;
      MaxPositionMeaning(rows[..last], user);
      if HasPhotos(rows[..last], user) {
        var i :| 0 <= i < last && rows[..last][i].user == user;
        assert rows[i].user == user;
      }
    }
  }

  /** MaxPosition is the largest position among the user's rows, and -1 when there is none above it. */
  lemma {:induction false} MaxPositionIsLargest(rows: seq<Photo>, user: int)
    ensures MaxPosition(rows, user) >= -1
    ensures forall p :: p in rows && p.user == user ==> p.position <= MaxPosition(rows, user)
    ensures MaxPosition(rows, user) == -1 || exists p :: p in rows && p.user == user && p.position == MaxPosition(rows, user)
  {
    if rows != [] {
      MaxPositionIsLargest(rows[..|rows| - 1], user);
      assert rows == rows[..|rows| - 1] + [rows[|rows| - 1]];
    }
  }

  /** The allocated position and main flag never break a constraint: an insert can only
      be refused for an unknown user or a used object key, or for lack of positions. */
  lemma AllocationNeverCollides(t: Table, user: int, key: string)
    requires Inv(t)
    ensures var r := CreateTx(t, user, key).1;
            && (r == Failure(PositionOutOfRange) <==> MaxPosition(t.rows, user) == MAX_INT16)
            && (r == Failure(ConstraintViolation) <==>
                  MaxPosition(t.rows, user) < MAX_INT16 && (user !in t.users || exists i :: 0 <= i < |t.rows| && t.rows[i].key == key))
  {
    MaxPositionMeaning(t.rows, user);
    MaxPositionBounded(t.rows, user);
    var photo := NewPhoto(t, user, key);
    forall i | 0 <= i < |t.rows|
      ensures ClashesWith(t.rows[i], photo) <==> t.rows[i].key == key
    {
    }
  }

  lemma {:induction false} MaxPositionBounded(rows: seq<Photo>, user: int)
    requires forall i :: 0 <= i < |rows| ==> rows[i].position <= MAX_INT16
    ensures MaxPosition(rows, user) <= MAX_INT16
  {
    if rows != [] {
      MaxPositionBounded(rows[..|rows| - 1], user);
    }
  }

  lemma CreateInv(t: Table, user: int, key: string)
    requires Inv(t)
    ensures Inv(CreateTx(t, user, key).0)
  {
    MaxPositionMeaning(t.rows, user);
    var photo := NewPhoto(t, user, key);
    if !Collides(t.rows, photo) {
      forall i | 0 <= i < |t.rows|
        ensures Follows(t.rows[i], photo)
      {
        assert !ClashesWith(t.rows[i], photo);
      }
    }
  }

  lemma {:induction false} WithoutMeaning(rows: seq<Photo>, user: int, id: int)
    ensures forall p :: p in Without(rows, user, id) <==> p in rows && !IsPhotoOf(p, user, id)
    ensures InOrder(rows) ==> InOrder(Without(rows, user, id))
  {
    if rows != [] {
      var last := |rows| - 1;
      WithoutMeaning(rows[..last], user, id);
      assert rows == rows[..last] + [rows[last]];
      var kept := Without(rows[..last], user, id);
      if InOrder(rows) {
        forall i | 0 <= i < |kept|
          ensures Follows(kept[i], rows[last])
        {
          assert kept[i] in kept;
          var j :| 0 <= j < last && rows[j] == kept[i];
        }
      }
    }
  }

  /** A deletion answers "not found" exactly when there is no such photo of that user. */
  lemma {:induction false} DeleteFinds(rows: seq<Photo>, user: int, id: int)
    ensures |Without(rows, user, id)| <= |rows|
    ensures |Without(rows, user, id)| < |rows| <==> exists p :: p in rows && IsPhotoOf(p, user, id)
  {
    if rows != [] {
      var last := |rows| - 1;
      DeleteFinds(rows[..last], user, id);
      assert rows == rows[..last] + [rows[last]];
    }
  }

  lemma DeleteInv(t: Table, user: int, id: int)
    requires Inv(t)
    ensures Inv(DeleteTx(t, user, id).0)
  {
    var kept := Without(t.rows, user, id);
    WithoutMeaning(t.rows, user, id);
    forall i | 0 <= i < |kept|
      ensures IsWellPlaced(kept[i]) && 1 <= kept[i].id < t.nextId
    {
      assert kept[i] in kept;
    }
  }

  lemma ApplyInv(t: Table, op: Op)
    requires Inv(t)
    ensures Inv(Apply(t, op))
  {
    match op
    case Create(user, key) => CreateInv(t, user, key);
    case Delete(user, id) => DeleteInv(t, user, id);
    case Register(_) =>
  }

  lemma {:induction false} RunInv(t: Table, ops: seq<Op>)
    requires Inv(t)
    ensures Inv(Run(t, ops))
  {
    if ops != [] {
      RunInv(t, ops[..|ops| - 1]);
      ApplyInv(Run(t, ops[..|ops| - 1]), ops[|ops| - 1]);
    }
  }

  /** In every reachable table a photo is main exactly when its position is 0, and a user's
      positions differ and grow with the order of creation. */
  lemma MainIsPositionZero(ops: seq<Op>)
    ensures var rows := Run(EMPTY, ops).rows;
            && (forall i :: 0 <= i < |rows| ==> (rows[i].isMain <==> rows[i].position == 0))
            && (forall i, j :: 0 <= i < j < |rows| && rows[i].user == rows[j].user ==>
                  rows[i].position < rows[j].position && rows[i].id < rows[j].id)
  {
    RunInv(EMPTY, ops);
    var rows := Run(EMPTY, ops).rows;
    assert forall i :: 0 <= i < |rows| ==> IsWellPlaced(rows[i]);
    assert forall i, j :: 0 <= i < j < |rows| ==> Follows(rows[i], rows[j]);
  }

  // ----- Listing -----

  /** The user's photos in order of creation. */
  function PhotosOf(rows: seq<Photo>, user: int): seq<Photo> {
    if rows == [] then []
    else
      var last := rows[|rows| - 1];
      PhotosOf(rows[..|rows| - 1], user) + (if last.user == user then [last] else [])
  }

  /** Any answer to SELECT ... WHERE user_id = user ORDER BY position ASC. */
  ghost predicate IsListing(rows: seq<Photo>, user: int, list: seq<Photo>) {
    && (forall p :: p in list <==> p in rows && p.user == user)
    && (forall i, j :: 0 <= i < j < |list| ==> list[i] != list[j] && list[i].position <= list[j].position)
  }

  lemma {:induction false} PhotosOfMeaning(rows: seq<Photo>, user: int)
    requires InOrder(rows)
    ensures forall p :: p in PhotosOf(rows, user) <==> p in rows && p.user == user
    ensures InOrder(PhotosOf(rows, user))
  {
    if rows != [] {
      var last := |rows| - 1;
      PhotosOfMeaning(rows[..last], user);
      assert rows == rows[..last] + [rows[last]];
      var front := PhotosOf(rows[..last], user);
      forall i | 0 <= i < |front|
        ensures Follows(front[i], rows[last])
      {
        assert front[i] in front;
        var j :| 0 <= j < last && rows[j] == front[i];
      }
    }
  }

  /** Photos are told apart by their ids and ordered alike by id and by position. */
  lemma SameOrder(t: Table, p: Photo, q: Photo)
    requires Inv(t) && p in t.rows && q in t.rows && p.user == q.user
    ensures p.position < q.position <==> p.id < q.id
    ensures p.position == q.position <==> p == q
    ensures p.id == q.id <==> p == q
  {
    var i :| 0 <= i < |t.rows| && t.rows[i] == p;
    var j :| 0 <= j < |t.rows| && t.rows[j] == q;
  }

  function IdsOf(photos: seq<Photo>): (ids: seq<int>)
    ensures |ids| == |photos| && forall i :: 0 <= i < |ids| ==> ids[i] == photos[i].id
  {
    seq(|photos|, i requires 0 <= i < |photos| => photos[i].id)
  }

  lemma SamePhotosSameIds(a: seq<Photo>, b: seq<Photo>)
    requires forall p :: p in a ==> p in b
    ensures forall id :: id in IdsOf(a) ==> id in IdsOf(b)
  {
    forall id | id in IdsOf(a)
      ensures id in IdsOf(b)
    {
      var i :| 0 <= i < |a| && a[i].id == id;
      assert a[i] in b;
      var j :| 0 <= j < |b| && b[j] == a[i];
      assert IdsOf(b)[j] == id;
    }
  }

  /** Listing by position is listing by order of creation: the query has one answer. */
  lemma ListingIsCreationOrder(t: Table, user: int, list: seq<Photo>)
    requires Inv(t)
    ensures IsListing(t.rows, user, list) <==> list == PhotosOf(t.rows, user)
  {
    var created := PhotosOf(t.rows, user);
    PhotosOfMeaning(t.rows, user);
    forall i, j | 0 <= i < j < |created|
      ensures created[i] != created[j] && created[i].position <= created[j].position
    {
      assert created[i] in created && created[j] in created;
      SameOrder(t, created[i], created[j]);
    }
    if IsListing(t.rows, user, list) {
      forall i, j | 0 <= i < j < |list|
        ensures list[i].id < list[j].id
      {
        assert list[i] in list && list[j] in list;
        SameOrder(t, list[i], list[j]);
      }
      SamePhotosSameIds(list, created);
      SamePhotosSameIds(created, list);
      AscendingUnique(IdsOf(list), IdsOf(created));
      forall i | 0 <= i < |list|
        ensures list[i] == created[i]
      {
        assert list[i] in list && created[i] in created;
        assert IdsOf(list)[i] == IdsOf(created)[i];
        SameOrder(t, list[i], created[i]);
      }
    }
  }

  // ----- The main photo is not replaced -----

  predicate HasMain(rows: seq<Photo>, user: int) {
    exists i :: 0 <= i < |rows| && rows[i].user == user && rows[i].isMain
  }

  lemma ApplyWithoutMain(t: Table, op: Op, user: int)
    requires Inv(t) && HasPhotos(t.rows, user) && !HasMain(t.rows, user)
    ensures !HasMain(Apply(t, op).rows, user)
  {
    var after := Apply(t, op).rows;
    if op.Delete? {
      WithoutMeaning(t.rows, op.user, op.id);
    }
    forall i | 0 <= i < |after|
      ensures !(after[i].user == user && after[i].isMain)
    {
      assert after[i] in after;
    }
  }

  /** Once the main photo is deleted, no later photo becomes main until the user has had
      none at all: for as long as some photo remains, none is main. */
  lemma {:induction false} DeletedMainIsNotReplaced(t: Table, ops: seq<Op>, user: int)
    requires Inv(t) && !HasMain(t.rows, user)
    requires forall k :: 0 <= k < |ops| ==> HasPhotos(Run(t, ops[..k]).rows, user)
    ensures !HasMain(Run(t, ops).rows, user)
  {
    if ops != [] {
      var front := ops[..|ops| - 1];
      forall k | 0 <= k < |front|
        ensures HasPhotos(Run(t, front[..k]).rows, user)
      {
        assert front[..k] == ops[..k];
      }
      DeletedMainIsNotReplaced(t, front, user);
      RunInv(t, front);
      ApplyWithoutMain(Run(t, front), ops[|ops| - 1], user);
    }
  }

  predicate DeletesMain(t: Table, op: Op, user: int) {
    op.Delete? && op.user == user && exists i :: 0 <= i < |t.rows| && IsPhotoOf(t.rows[i], user, op.id) && t.rows[i].isMain
  }

  /** No two photos share an id, and no two of a user's are main. */
  lemma OneMain(t: Table, i: nat, j: nat)
    requires Inv(t) && i < |t.rows| && j < |t.rows|
    ensures t.rows[i].id == t.rows[j].id ==> i == j
    ensures t.rows[i].user == t.rows[j].user && t.rows[i].isMain && t.rows[j].isMain ==> i == j
  {
  }

  /** The only way to lose the main photo and keep others is to delete that photo. */
  lemma ApplyWithMain(t: Table, op: Op, user: int)
    requires Inv(t) && HasMain(t.rows, user)
    ensures !HasMain(Apply(t, op).rows, user) <==> DeletesMain(t, op, user)
  {
    var after := Apply(t, op).rows;
    var i :| 0 <= i < |t.rows| && t.rows[i].user == user && t.rows[i].isMain;
    if op.Delete? {
      WithoutMeaning(t.rows, op.user, op.id);
      if IsPhotoOf(t.rows[i], op.user, op.id) {
        forall k | 0 <= k < |after|
          ensures !(after[k].user == user && after[k].isMain)
        {
          assert after[k] in after;
          var j :| 0 <= j < |t.rows| && t.rows[j] == after[k];
          OneMain(t, i, j);
        }
      } else {
        assert t.rows[i] in after;
        assert forall j :: 0 <= j < |t.rows| && t.rows[j].user == user && t.rows[j].isMain ==> j == i by {
          forall j | 0 <= j < |t.rows| && t.rows[j].user == user && t.rows[j].isMain
            ensures j == i
          {
            OneMain(t, i, j);
          }
        }
      }
    } else {
      assert after[i] == t.rows[i];
    }
  }

  /** A first photo is main. */
  lemma ApplyFirst(t: Table, op: Op, user: int)
    requires Inv(t) && !HasPhotos(t.rows, user)
    ensures HasPhotos(Apply(t, op).rows, user) ==> HasMain(Apply(t, op).rows, user)
  {
    var after := Apply(t, op).rows;
    if op.Delete? {
      WithoutMeaning(t.rows, op.user, op.id);
      assert forall k :: 0 <= k < |after| ==> after[k] in after;
    } else if HasPhotos(after, user) {
      var i :| 0 <= i < |after| && after[i].user == user;
      assert i == |t.rows| && after[i].isMain;
    }
  }

  ghost predicate KeepsPhotos(ops: seq<Op>, i: nat, user: int) {
    forall k :: i < k <= |ops| ==> HasPhotos(Run(EMPTY, ops[..k]).rows, user)
  }

  ghost predicate LostMainAt(ops: seq<Op>, i: nat, user: int) {
    i < |ops| && DeletesMain(Run(EMPTY, ops[..i]), ops[i], user) && KeepsPhotos(ops, i, user)
  }

  ghost predicate LostMain(ops: seq<Op>, user: int) {
    exists i: nat :: LostMainAt(ops, i, user)
  }

  lemma LostMainLater(ops: seq<Op>, op: Op, i: nat, user: int)
    requires LostMainAt(ops, i, user) && HasPhotos(Run(EMPTY, ops + [op]).rows, user)
    ensures LostMainAt(ops + [op], i, user)
  {
    var all := ops + [op];
    assert all[..i] == ops[..i];
    forall k | i < k <= |all|
      ensures HasPhotos(Run(EMPTY, all[..k]).rows, user)
    {
      if k <= |ops| {
        assert all[..k] == ops[..k];
      } else {
        assert all[..k] == all;
      }
    }
  }

  lemma LostMainEarlier(ops: seq<Op>, op: Op, i: nat, user: int)
    requires LostMainAt(ops + [op], i, user) && i < |ops|
    ensures LostMainAt(ops, i, user)
  {
    var all := ops + [op];
    assert all[..i] == ops[..i];
    forall k | i < k <= |ops|
      ensures HasPhotos(Run(EMPTY, ops[..k]).rows, user)
    {
      assert all[..k] == ops[..k];
      assert HasPhotos(Run(EMPTY, all[..k]).rows, user);
    }
  }

  lemma LostMainStep(ops: seq<Op>, op: Op, user: int)
    ensures LostMain(ops + [op], user) <==>
            HasPhotos(Run(EMPTY, ops + [op]).rows, user)
            && (LostMain(ops, user) || DeletesMain(Run(EMPTY, ops), op, user))
  {
    var all := ops + [op];
    assert all[..|all|] == all && all[..|ops|] == ops;
    if LostMain(all, user) {
      var i: nat :| LostMainAt(all, i, user);
      assert HasPhotos(Run(EMPTY, all[..|all|]).rows, user);
      if i < |ops| {
        LostMainEarlier(ops, op, i, user);
      }
    }
    if HasPhotos(Run(EMPTY, all).rows, user) {
      if LostMain(ops, user) {
        var i: nat :| LostMainAt(ops, i, user);
        LostMainLater(ops, op, i, user);
      }
      if DeletesMain(Run(EMPTY, ops), op, user) {
        assert LostMainAt(all, |ops|, user);
      }
    }
  }

  /** Exactly when a user has photos but no main one: the main photo was deleted while others
      remained, and the user has had photos ever since; nothing makes another one main. */
  lemma {:induction false} NoMainIffDeleted(ops: seq<Op>, user: int)
    ensures HasPhotos(Run(EMPTY, ops).rows, user) && !HasMain(Run(EMPTY, ops).rows, user) <==> LostMain(ops, user)
  {
    if ops != [] {
      var front, last := ops[..|ops| - 1], ops[|ops| - 1];
      var t := Run(EMPTY, front);
      NoMainIffDeleted(front, user);
      RunInv(EMPTY, front);
      assert ops == front + [last];
      LostMainStep(front, last, user);
      if HasMain(t.rows, user) {
        ApplyWithMain(t, last, user);
      } else if HasPhotos(t.rows, user) {
        ApplyWithoutMain(t, last, user);
      } else {
        ApplyFirst(t, last, user);
      }
    }
  }

  /** A user uploads two photos and deletes the first: one photo, none main. */
  lemma DeletingMainLeavesNone(user: int, a: string, b: string)
    requires a != b
    ensures var rows := Run(EMPTY, [Register(user), Create(user, a), Create(user, b), Delete(user, 1)]).rows;
            HasPhotos(rows, user) && !HasMain(rows, user)
  {
    var uploads := [Register(user), Create(user, a), Create(user, b)];
    assert uploads + [Delete(user, 1)] == [Register(user), Create(user, a), Create(user, b), Delete(user, 1)];
    RunSnoc(EMPTY, uploads, Delete(user, 1));
    TwoUploads(user, a, b);
    SecondRemains(user, a, b);
  }

  lemma TwoUploads(user: int, a: string, b: string)
    requires a != b
    ensures Run(EMPTY, [Register(user), Create(user, a), Create(user, b)])
            == Table({user}, [Photo(1, user, a, 0, true), Photo(2, user, b, 1, false)], 3)
  {
    var register, first, second := Register(user), Create(user, a), Create(user, b);
    assert [] + [register] == [register] && [register] + [first] == [register, first];
    assert [register, first] + [second] == [register, first, second];
    RunSnoc(EMPTY, [], register);
    RunSnoc(EMPTY, [register], first);
    RunSnoc(EMPTY, [register, first], second);
    FirstPhoto(user, a);
    SecondPhoto(user, a, b);
  }

  lemma RunSnoc(t: Table, ops: seq<Op>, op: Op)
    ensures Run(t, ops + [op]) == Apply(Run(t, ops), op)
  {
    assert (ops + [op])[..|ops|] == ops;
  }

  lemma FirstPhoto(user: int, a: string)
    ensures Apply(Table({user}, [], 1), Create(user, a)) == Table({user}, [Photo(1, user, a, 0, true)], 2)
  {
  }

  lemma SecondPhoto(user: int, a: string, b: string)
    requires a != b
    ensures Apply(Table({user}, [Photo(1, user, a, 0, true)], 2), Create(user, b))
            == Table({user}, [Photo(1, user, a, 0, true), Photo(2, user, b, 1, false)], 3)
  {
    var photo := Photo(1, user, a, 0, true);
    assert [photo][..0] == [];
    assert MaxPosition([photo], user) == 0;
    assert [photo][0].user == user;
    assert HasPhotos([photo], user);
    assert !ClashesWith(photo, Photo(2, user, b, 1, false));
    assert !Collides([photo], Photo(2, user, b, 1, false));
  }

  lemma SecondRemains(user: int, a: string, b: string)
    ensures var rest := Without([Photo(1, user, a, 0, true), Photo(2, user, b, 1, false)], user, 1);
            HasPhotos(rest, user) && !HasMain(rest, user)
  {
    var both := [Photo(1, user, a, 0, true), Photo(2, user, b, 1, false)];
    var rest := Without(both, user, 1);
    WithoutMeaning(both, user, 1);
    assert both[1] in rest;
    assert forall i :: 0 <= i < |rest| ==> rest[i] in rest;
  }

  // ----- The repository -----

  /** 0 for a first photo, else one more than the largest position of the user's photos. */
  ghost predicate IsNextPosition(rows: seq<Photo>, user: int, position: int) {
    && position >= 0 && (forall p :: p in rows && p.user == user ==> p.position < position)
    && (position == 0 || exists p :: p in rows && p.user == user && p.position == position - 1)
  }

  /** Exactly the user's photo of that id goes, and without one nothing changes. */
  lemma DeleteMeaning(rows: seq<Photo>, user: int, id: int)
    ensures var rest := Without(rows, user, id);
            && (forall p :: p in rest <==> p in rows && !(p.user == user && p.id == id))
            && (|rest| < |rows| <==> exists p :: p in rows && p.user == user && p.id == id)
            && |rest| <= |rows| && (|rest| == |rows| ==> rest == rows)
  {
    WithoutMeaning(rows, user, id);
    DeleteFinds(rows, user, id);
    NothingDeleted(rows, user, id);
    assert forall p: Photo :: IsPhotoOf(p, user, id) <==> p.user == user && p.id == id;
  }

  lemma {:induction false} NothingDeleted(rows: seq<Photo>, user: int, id: int)
    ensures |Without(rows, user, id)| == |rows| ==> Without(rows, user, id) == rows
  {
    if rows != [] {
      var last := |rows| - 1;
      NothingDeleted(rows[..last], user, id);
      DeleteFinds(rows[..last], user, id);
      assert rows == rows[..last] + [rows[last]];
    }
  }

  class PhotoRepository {
    var users: set<int>
    var rows: seq<Photo>
    var nextId: int

    function Now(): Table
      reads this
    {
      Table(users, rows, nextId)
    }

    constructor ()
      ensures Now() == EMPTY
    {
      users, rows, nextId := {}, [], 1;
    }

    method Create(user: int, key: string) returns (r: Result<Photo, PhotoError>)
      modifies this
      ensures (Now(), r) == CreateTx(old(Now()), user, key)
      ensures r.Success? ==>
                && rows == old(rows) + [r.value] && r.value.id == old(nextId) && r.value.user == user && r.value.key == key
                && user in users && (forall p :: p in old(rows) ==> p.key != key)
                && IsNextPosition(old(rows), user, r.value.position) && r.value.position <= 32767
                && (r.value.isMain <==> forall p :: p in old(rows) ==> p.user != user)
      ensures r == Failure(PositionOutOfRange) <==> exists p :: p in old(rows) && p.user == user && p.position >= 32767
      ensures r.Failure? ==> rows == old(rows) && (r.error == PositionOutOfRange || r.error == ConstraintViolation)
      ensures users == old(users)
    {
      MaxPositionIsLargest(rows, user);
      var position := MaxPosition(rows, user) + 1;
      if position > MAX_INT16 {
        return Failure(PositionOutOfRange);
      }
      var hasPhotos := HasPhotos(rows, user);
      var photo := Photo(nextId, user, key, position, !hasPhotos);
      nextId := nextId + 1;
      if user !in users || Collides(rows, photo) {
        return Failure(ConstraintViolation);
      }
      rows := rows + [photo];
      return Success(photo);
    }

    method GetByID(user: int, id: int) returns (r: Result<Photo, PhotoError>)
      ensures r.Success? ==> r.value in rows && r.value.user == user && r.value.id == id
      ensures r.Failure? ==> r.error == PhotoNotFound && forall p :: p in rows ==> !(p.user == user && p.id == id)
    {
      for i := 0 to |rows|
        invariant forall k :: 0 <= k < i ==> !IsPhotoOf(rows[k], user, id)
      {
        if IsPhotoOf(rows[i], user, id) {
          return Success(rows[i]);
        }
      }
      return Failure(PhotoNotFound);
    }

    method Delete(user: int, id: int) returns (r: Result<(), PhotoError>)
      modifies this
      ensures (Now(), r) == DeleteTx(old(Now()), user, id)
      ensures forall p :: p in rows <==> p in old(rows) && !(p.user == user && p.id == id)
      ensures r.Success? <==> exists p :: p in old(rows) && p.user == user && p.id == id
      ensures r.Failure? ==> r.error == PhotoNotFound && rows == old(rows)
      ensures users == old(users) && nextId == old(nextId)
    {
      var kept := [];
      for i := 0 to |rows|
        invariant Now() == old(Now()) && kept == Without(rows[..i], user, id)
      {
        assert rows[..i + 1][..i] == rows[..i];
        if !IsPhotoOf(rows[i], user, id) {
          kept := kept + [rows[i]];
        }
      }
      assert rows[..|rows|] == rows;
      DeleteMeaning(rows, user, id);
      var affected := |rows| - |kept|;
      rows := kept;
      return if affected == 0 then Failure(PhotoNotFound) else Success(());
    }

    /** ListByUserID; answer is what the ordered query returns, row by row. */
    method ListByUserID(user: int, answer: seq<Photo>) returns (photos: seq<Photo>)
      requires Inv(Now()) && IsListing(rows, user, answer)
      ensures photos == PhotosOf(rows, user)
    {
      photos := [];
      for i := 0 to |answer|
        invariant photos == answer[..i]
      {
        photos := photos + [answer[i]];
      }
      ListingIsCreationOrder(Now(), user, answer);
    }
  }
}
