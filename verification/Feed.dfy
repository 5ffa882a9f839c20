/** The discovery feed: batched candidate scans, keyset cursors, and what a client
    sees that follows them while the tables change underneath. */
module Feed {
  import opened Common
  import opened Cursors
  import opened Schema
  import opened CandidateQuery

  datatype Candidate = Candidate(profile: Profile, isVerified: bool)

  datatype FeedItem = FeedItem(candidate: Candidate, distanceKm: real)

  /** The viewer's own data, loaded once per request. */
  datatype Search = Search(viewer: int, filters: Filters, bounds: Bounds, latitude: real, longitude: real)

  /** geo.DistanceKM, left uninterpreted. */
  type Distance = (real, real, real, real) -> real

  /** What the n-th database statement sees. */
  type World = nat -> Snapshot

  // ----- Candidate lists -----

  function CandidateAt(at: Snapshot, id: int): Candidate
    requires id in at.tables.profiles && at.tables.profiles[id].userId in at.tables.users
  {
    var p := at.tables.profiles[id];
    Candidate(p, at.tables.users[p.userId])
  }

  function Matching(input: Input, at: Snapshot): set<int> {
    set id | id in at.tables.profiles && Qualifies(input, at.tables.profiles[id], at)
  }

  /** ORDER BY p.id ASC LIMIT n over the qualifying profiles. */
  function CandidateIds(input: Input, at: Snapshot): seq<int> {
    Take(SortedIds(Matching(input, at)), input.limit)
  }

  /** Running a statement: filter, order by primary key, cut at LIMIT. */
  function Execute(q: Query, at: Snapshot): (ids: seq<int>)
    requires 1 <= q.limitNumber <= |q.args|
    requires q.args[q.limitNumber - 1].Num? && q.args[q.limitNumber - 1].n >= 0
    requires forall c :: c in q.conditions ==> Bound(c, q.args)
    ensures forall id :: id in ids ==> id in at.tables.profiles && Selects(q, at.tables.profiles[id], at)
  {
    var selected := set id | id in at.tables.profiles && Selects(q, at.tables.profiles[id], at);
    var sorted := SortedIds(selected);
    var ids := Take(sorted, q.args[q.limitNumber - 1].n);
    assert forall id :: id in ids ==> id in sorted;
    ids
  }

  ghost predicate IsListing(candidates: seq<Candidate>, input: Input, at: Snapshot) {
    var ids := CandidateIds(input, at);
    && |candidates| == |ids|
    && forall i :: 0 <= i < |ids| ==> ids[i] in Matching(input, at) && candidates[i] == CandidateAt(at, ids[i])
  }

  function CandidatesAt(at: Snapshot, ids: seq<int>): (rows: seq<Candidate>)
    requires forall id :: id in ids ==> id in at.tables.profiles && at.tables.profiles[id].userId in at.tables.users
    ensures |rows| == |ids| && forall i :: 0 <= i < |ids| ==> rows[i] == CandidateAt(at, ids[i])
  {
    seq(|ids|, i requires 0 <= i < |ids| => CandidateAt(at, ids[i]))
  }

  /** scanCandidates: the rows of an answer, one by one. */
  method ScanCandidates(at: Snapshot, ids: seq<int>) returns (rows: seq<Candidate>)
    requires forall id :: id in ids ==> id in at.tables.profiles && at.tables.profiles[id].userId in at.tables.users
    ensures rows == CandidatesAt(at, ids)
  {
    rows := [];
    for i := 0 to |ids|
      invariant rows == CandidatesAt(at, ids)[..i]
    {
      rows := rows + [CandidateAt(at, ids[i])];
    }
  }

  lemma ExecuteLists(q: Query, input: Input, at: Snapshot)
    requires 1 <= q.limitNumber <= |q.args| && q.args[q.limitNumber - 1] == Num(input.limit)
    requires forall c :: c in q.conditions ==> Bound(c, q.args)
    requires forall p: Profile :: Selects(q, p, at) <==> Qualifies(input, p, at)
    ensures Execute(q, at) == CandidateIds(input, at)
  {
    assert Matching(input, at) == set id | id in at.tables.profiles && Selects(q, at.tables.profiles[id], at);
  }

  lemma ListedMatch(input: Input, at: Snapshot)
    ensures forall id :: id in CandidateIds(input, at) ==> id in Matching(input, at)
  {
    var all := SortedIds(Matching(input, at));
    assert forall id :: id in Take(all, input.limit) ==> id in all;
  }

  lemma RowsAreListing(input: Input, at: Snapshot)
    requires forall id :: id in CandidateIds(input, at) ==>
               id in at.tables.profiles && at.tables.profiles[id].userId in at.tables.users
    ensures IsListing(CandidatesAt(at, CandidateIds(input, at)), input, at)
  {
    ListedMatch(input, at);
  }

  /** ListCandidates: build the statement, execute it, scan the rows. */
  method ListCandidates(input: Input, at: Snapshot) returns (candidates: seq<Candidate>)
    ensures IsListing(candidates, input, at)
  {
    var q := BuildCandidateQuery(input);
    var ids := Execute(q, at);
    ExecuteLists(q, input, at);
    ListedMatch(input, at);
    candidates := ScanCandidates(at, ids);
    RowsAreListing(input, at);
  }

  lemma ListedBelow(input: Input, at: Snapshot)
    ensures var ids := CandidateIds(input, at);
            && Ascending(ids)
            && |ids| <= input.limit
            && (forall id :: id in ids ==> id in Matching(input, at))
            && (forall id :: id in Matching(input, at) && (|ids| < input.limit || (ids != [] && id <= ids[|ids| - 1]))
                             ==> id in ids)
  {
  }

  // ----- One page -----

  /** Inside the requested distance, by the exact check the service makes. */
  predicate IsNear(search: Search, distance: Distance, p: Profile) {
    && p.latitude.Some? && p.longitude.Some?
    && distance(search.latitude, search.longitude, p.latitude.value, p.longitude.value)
       <= search.filters.maxDistanceKm as real
  }

  function QueryFor(search: Search, after: int, limit: nat): Input {
    Input(search.viewer, search.filters, search.bounds, after, limit)
  }

  /** The profile belongs in the viewer's feed at this moment. */
  predicate Shown(search: Search, distance: Distance, at: Snapshot, id: int) {
    && id in at.tables.profiles
    && Qualifies(QueryFor(search, 0, 0), at.tables.profiles[id], at)
    && IsNear(search, distance, at.tables.profiles[id])
  }

  function RoundDistance(d: real): real {
    (d * 100.0 + 0.5).Floor as real / 100.0
  }

  function ItemFor(search: Search, distance: Distance, c: Candidate): FeedItem
    requires IsNear(search, distance, c.profile)
  {
    FeedItem(c, RoundDistance(distance(search.latitude, search.longitude,
                                       c.profile.latitude.value, c.profile.longitude.value)))
  }

  function ItemId(item: FeedItem): int {
    item.candidate.profile.id
  }

  function Ids(items: seq<FeedItem>): (ids: seq<int>)
    ensures |ids| == |items|
  {
    seq(|items|, i requires 0 <= i < |items| => ItemId(items[i]))
  }

  /** The item is what one of the statements from..to showed of a profile that belonged in the feed then. */
  ghost predicate SeenDuring(search: Search, distance: Distance, world: World, from: nat, to: nat, item: FeedItem) {
    exists k: nat :: from <= k < to && ShownAs(search, distance, world(k), item)
  }

  ghost predicate ShownAs(search: Search, distance: Distance, at: Snapshot, item: FeedItem) {
    && Shown(search, distance, at, ItemId(item))
    && item == ItemFor(search, distance, CandidateAt(at, ItemId(item)))
  }

  ghost predicate ShownThroughout(search: Search, distance: Distance, world: World, from: nat, to: nat, id: int) {
    forall k: nat :: from <= k < to ==> Shown(search, distance, world(k), id)
  }

  /** What a page guarantees when its statements from..to may each see other tables. */
  ghost predicate IsFeedPage(search: Search, distance: Distance, world: World, from: nat, to: nat,
                             after: int, limit: nat, items: seq<FeedItem>)
  {
    && |items| <= limit
    && Ascending(Ids(items))
    && (forall item :: item in items ==> ItemId(item) > after && SeenDuring(search, distance, world, from, to, item))
    && (forall id :: id > after && ShownThroughout(search, distance, world, from, to, id)
                     && (|items| == limit ==> items == [] || id <= ItemId(items[|items| - 1]))
                     ==> id in Ids(items))
  }

  ghost predicate Keyed(world: World) {
    forall k: nat :: ProfilesKeyed(world(k).tables.profiles)
  }

  const DEFAULT_LIMIT := 20
  const MAXIMUM_LIMIT := 50
  const PRELIMINARY_RADIUS_KM := 100

  datatype FeedError =
    InvalidFeedLimit | InvalidFeedCursor | PreferencesNotFound | ProfileNotFound | CoordinatesRequired | InvalidBounds

  datatype FeedOutput = FeedOutput(items: seq<FeedItem>, nextCursor: string)

  function NormalizeLimit(limit: int): Result<nat, FeedError> {
    if limit == 0 then Success(DEFAULT_LIMIT)
    else if limit < 0 || limit > MAXIMUM_LIMIT then Failure(InvalidFeedLimit)
    else Success(limit)
  }

  /** The checks GetFeed makes before it scans, in order. */
  function PrepareSearch(viewer: int, limit: int, cursor: string, filters: Option<Filters>, profile: Option<Profile>,
                         newBounds: (real, real, int) -> Option<Bounds>): Result<(Search, nat, int), FeedError>
  {
    var normalized := NormalizeLimit(limit);
    var after := ParseCursor(cursor);
    if normalized.Failure? then Failure(normalized.error)
    else if after.Failure? then Failure(InvalidFeedCursor)
    else if filters.None? then Failure(PreferencesNotFound)
    else if profile.None? then Failure(ProfileNotFound)
    else if profile.value.latitude.None? || profile.value.longitude.None? then Failure(CoordinatesRequired)
    else
      var latitude, longitude := profile.value.latitude.value, profile.value.longitude.value;
      var radius := if filters.value.maxDistanceKm > PRELIMINARY_RADIUS_KM then filters.value.maxDistanceKm
                    else PRELIMINARY_RADIUS_KM;
      var bounds := newBounds(latitude, longitude, radius);
      if bounds.None? then Failure(InvalidBounds)
      else Success((Search(viewer, filters.value, bounds.value, latitude, longitude), normalized.value, after.value))
  }

  /** The cursor after a full page; identifiers come from BIGSERIAL and are positive. */
  function NextCursor(items: seq<FeedItem>, limit: nat): string {
    if |items| == limit && items != [] && ItemId(items[|items| - 1]) >= 0
    then FormatInt(ItemId(items[|items| - 1]))
    else ""
  }

  /** The qualifying rows after a cursor, before the distance check. */
  ghost function RowsAfter(search: Search, at: Snapshot, after: int): set<int> {
    Matching(QueryFor(search, after, 0), at)
  }

  /** The statements from to to all see the same tables. */
  ghost predicate Unchanging(world: World, from: nat, to: nat) {
    forall k: nat :: from <= k < to ==> world(k) == world(from)
  }

  lemma LaterCursorNarrows(search: Search, at: Snapshot, after: int, limit: nat)
    requires after >= 0 && ProfilesKeyed(at.tables.profiles)
    ensures forall id :: id in Matching(QueryFor(search, after, limit), at) <==>
                         id in Matching(QueryFor(search, 0, 0), at) && id > after
  {
  }

  /** Up to the cursor the scan has kept exactly what it should have: items in order, each
      shown at some statement, and every profile shown throughout. */
  ghost predicate CoveredUpTo(search: Search, distance: Distance, world: World, from: nat, to: nat,
                              after: int, cursor: int, items: seq<FeedItem>)
  {
    && Ascending(Ids(items))
    && (forall item :: item in items ==>
          after < ItemId(item) <= cursor && SeenDuring(search, distance, world, from, to, item))
    && (forall id :: after < id <= cursor && ShownThroughout(search, distance, world, from, to, id) ==> id in Ids(items))
  }

  lemma CoveredLonger(search: Search, distance: Distance, world: World, from: nat, to: nat,
                      after: int, cursor: int, items: seq<FeedItem>)
    requires from <= to && CoveredUpTo(search, distance, world, from, to, after, cursor, items)
    ensures CoveredUpTo(search, distance, world, from, to + 1, after, cursor, items)
  {
  }

  /** The cursor moves to the next listed candidate c, which is kept or skipped. */
  lemma CoverNext(search: Search, distance: Distance, world: World, from: nat, now: nat,
                  after: int, cursor: int, items: seq<FeedItem>, next: int, kept: seq<FeedItem>)
    requires from <= now && after <= cursor < next
    requires CoveredUpTo(search, distance, world, from, now + 1, after, cursor, items)
    requires ProfilesKeyed(world(now).tables.profiles)
    requires next in Matching(QueryFor(search, 0, 0), world(now))
    requires forall id :: id in Matching(QueryFor(search, 0, 0), world(now)) ==> !(cursor < id < next)
    requires kept == if IsNear(search, distance, world(now).tables.profiles[next])
                     then items + [ItemFor(search, distance, CandidateAt(world(now), next))] else items
    ensures CoveredUpTo(search, distance, world, from, now + 1, after, next, kept)
  {
    forall id | after < id <= next && ShownThroughout(search, distance, world, from, now + 1, id)
      ensures id in Ids(kept)
    {
      assert Shown(search, distance, world(now), id);
      if id <= cursor {
        var i :| 0 <= i < |items| && Ids(items)[i] == id;
        assert Ids(kept)[i] == id;
      } else {
        assert id in Matching(QueryFor(search, 0, 0), world(now));
        assert Ids(kept)[|kept| - 1] == id;
      }
    }
    forall item | item in kept
      ensures after < ItemId(item) <= next && SeenDuring(search, distance, world, from, now + 1, item)
    {
      if item !in items {
        assert ShownAs(search, distance, world(now), item);
      }
    }
    forall i, j | 0 <= i < j < |kept| ensures Ids(kept)[i] < Ids(kept)[j] {
      if j < |items| {
        assert Ids(items)[i] < Ids(items)[j];
      } else {
        assert items[i] in items;
      }
    }
  }

  /** In an ascending listing of everything in pool above low, neighbours have nothing between them. */
  lemma NoneBetween(ids: seq<int>, pool: set<int>, low: int, i: nat)
    requires Ascending(ids) && i < |ids|
    requires forall id :: id in ids ==> id > low
    requires forall id :: id in pool && low < id <= ids[|ids| - 1] ==> id in ids
    ensures var previous := if i == 0 then low else ids[i - 1];
            low <= previous < ids[i] && forall id :: id in pool ==> !(previous < id < ids[i])
  {
    var previous := if i == 0 then low else ids[i - 1];
    assert ids[i] in ids;
    assert low <= previous by {
      if i > 0 {
        assert ids[i - 1] in ids;
      }
    }
    forall id | id in pool ensures !(previous < id < ids[i]) {
      if low < id <= ids[|ids| - 1] {
        var j :| 0 <= j < |ids| && ids[j] == id;
      }
    }
  }

  /** Consecutive rows of a batch have no candidate between them. */
  lemma NextListed(search: Search, at: Snapshot, cursor: int, limit: nat, i: nat)
    requires cursor >= 0 && ProfilesKeyed(at.tables.profiles)
    requires i < |CandidateIds(QueryFor(search, cursor, limit), at)|
    ensures var ids := CandidateIds(QueryFor(search, cursor, limit), at);
            var previous := if i == 0 then cursor else ids[i - 1];
            && cursor <= previous < ids[i]
            && ids[i] in Matching(QueryFor(search, 0, 0), at)
            && forall id :: id in Matching(QueryFor(search, 0, 0), at) ==> !(previous < id < ids[i])
  {
    var ids := CandidateIds(QueryFor(search, cursor, limit), at);
    ListedBelow(QueryFor(search, cursor, limit), at);
    LaterCursorNarrows(search, at, cursor, limit);
    assert ids[i] in ids;
    NoneBetween(ids, Matching(QueryFor(search, 0, 0), at), cursor, i);
  }

  /** A short batch leaves nothing after the cursor it ends on. */
  lemma ShortBatchEndsScan(search: Search, distance: Distance, world: World, from: nat, now: nat, after: int,
                           start: int, batchSize: nat, cursor: int, items: seq<FeedItem>)
    requires from <= now && 0 <= after <= start && ProfilesKeyed(world(now).tables.profiles)
    requires |CandidateIds(QueryFor(search, start, batchSize), world(now))| < batchSize
    requires var ids := CandidateIds(QueryFor(search, start, batchSize), world(now));
             cursor == if ids == [] then start else ids[|ids| - 1]
    requires CoveredUpTo(search, distance, world, from, now + 1, after, cursor, items)
    ensures AllCovered(search, distance, world, from, now + 1, after, items)
  {
    var input := QueryFor(search, start, batchSize);
    var ids := CandidateIds(input, world(now));
    ListedBelow(input, world(now));
    forall id | id > after && ShownThroughout(search, distance, world, from, now + 1, id) ensures id in Ids(items) {
      assert Shown(search, distance, world(now), id);
      if id > start {
        assert id in Matching(input, world(now));
        var j :| 0 <= j < |ids| && ids[j] == id;
        assert id <= cursor;
      }
    }
  }

  /** On unchanging tables every batch but the last used up batchSize fresh rows. */
  ghost predicate BatchesCounted(search: Search, at: Snapshot, after: int, batches: int, batchSize: nat,
                                 cursor: int, consumed: set<int>)
  {
    && |consumed| == batches * batchSize
    && consumed <= RowsAfter(search, at, after)
    && forall id :: id in consumed ==> id <= cursor
  }

  /** At most N / batchSize + 1 queries over N rows. */
  ghost predicate QueriesBounded(queries: int, batchSize: nat, rows: set<int>) {
    (queries - 1) * batchSize <= |rows|
  }

  lemma BatchesBounded(search: Search, at: Snapshot, after: int, queries: int, batchSize: nat, cursor: int, consumed: set<int>)
    requires BatchesCounted(search, at, after, queries - 1, batchSize, cursor, consumed)
    ensures QueriesBounded(queries, batchSize, RowsAfter(search, at, after))
  {
    SubsetSize(consumed, RowsAfter(search, at, after));
  }

  lemma BatchIsFresh(search: Search, at: Snapshot, after: int, start: int, batchSize: nat)
    requires 0 <= after <= start && ProfilesKeyed(at.tables.profiles)
    ensures var ids := CandidateIds(QueryFor(search, start, batchSize), at);
            && |set id | id in ids| == |ids|
            && forall id :: id in ids ==> start < id <= ids[|ids| - 1] && id in RowsAfter(search, at, after)
  {
    var ids := CandidateIds(QueryFor(search, start, batchSize), at);
    ListedBelow(QueryFor(search, start, batchSize), at);
    AscendingSetSize(ids);
    forall id | id in ids ensures start < id <= ids[|ids| - 1] && id in RowsAfter(search, at, after) {
      assert id in Matching(QueryFor(search, start, batchSize), at);
      var j :| 0 <= j < |ids| && ids[j] == id;
    }
  }

  /** A batch of new ids above everything counted so far, on sets alone. */
  lemma CountBatch(consumed: set<int>, ids: seq<int>, start: int, batches: int, batchSize: nat)
    requires |consumed| == batches * batchSize && |ids| == batchSize > 0 && Ascending(ids)
    requires forall id :: id in consumed ==> id <= start
    requires forall id :: id in ids ==> id > start
    ensures var more := consumed + set id | id in ids;
            |more| == (batches + 1) * batchSize && forall id :: id in more ==> id <= ids[|ids| - 1]
  {
    var batch := set id | id in ids;
    AscendingSetSize(ids);
    assert ids[|ids| - 1] in ids;
    assert consumed !! batch;
    OneMorePage(batches + 1, batchSize);
  }

  lemma FullBatchCounted(search: Search, at: Snapshot, after: int, batches: int, start: int, batchSize: nat, consumed: set<int>)
      returns (more: set<int>)
    requires 0 <= after <= start && ProfilesKeyed(at.tables.profiles) && batchSize > 0
    requires BatchesCounted(search, at, after, batches, batchSize, start, consumed)
    requires |CandidateIds(QueryFor(search, start, batchSize), at)| == batchSize
    ensures var ids := CandidateIds(QueryFor(search, start, batchSize), at);
            BatchesCounted(search, at, after, batches + 1, batchSize, ids[|ids| - 1], more)
  {
    var ids := CandidateIds(QueryFor(search, start, batchSize), at);
    BatchIsFresh(search, at, after, start, batchSize);
    CountBatch(consumed, ids, start, batches, batchSize);
    more := consumed + set id | id in ids;
  }

  /** The inner loop of GetFeed: go through a batch until the page is full. */
  method KeepNear(search: Search, distance: Distance, candidates: seq<Candidate>, size: nat,
                   found: seq<FeedItem>, start: int,
                   ghost world: World, ghost from: nat, ghost now: nat, ghost after: int, ghost batchSize: nat)
    returns (items: seq<FeedItem>, scanCursor: int)
    requires from <= now && 0 <= after <= start <= MAX_INT64 && |found| < size
    requires ProfilesKeyed(world(now).tables.profiles)
    requires CoveredUpTo(search, distance, world, from, now + 1, after, start, found)
    requires IsListing(candidates, QueryFor(search, start, batchSize), world(now))
    ensures |items| <= size && start <= scanCursor <= MAX_INT64
    ensures CoveredUpTo(search, distance, world, from, now + 1, after, scanCursor, items)
    ensures |items| < size ==>
              scanCursor == if candidates == [] then start else candidates[|candidates| - 1].profile.id
  {
    ghost var ids := CandidateIds(QueryFor(search, start, batchSize), world(now));
    items, scanCursor := found, start;
    for i := 0 to |candidates|
      invariant scanCursor == if i == 0 then start else ids[i - 1]
      invariant start <= scanCursor <= MAX_INT64
      invariant |items| < size
      invariant CoveredUpTo(search, distance, world, from, now + 1, after, scanCursor, items)
    {
      var candidate := candidates[i];
      NextListed(search, world(now), start, batchSize, i);
      ghost var before, kept := scanCursor, items;
      scanCursor := candidate.profile.id;
      if IsNear(search, distance, candidate.profile) {
        items := items + [ItemFor(search, distance, candidate)];
      }
      CoverNext(search, distance, world, from, now, after, before, kept, scanCursor, items);
      if |items| == size {
        break;
      }
    }
  }

  ghost predicate AllCovered(search: Search, distance: Distance, world: World, from: nat, to: nat,
                             after: int, items: seq<FeedItem>)
  {
    forall id :: id > after && ShownThroughout(search, distance, world, from, to, id) ==> id in Ids(items)
  }

  ghost predicate FullBatch(search: Search, at: Snapshot, start: int, batchSize: nat, cursor: int) {
    var ids := CandidateIds(QueryFor(search, start, batchSize), at);
    |ids| == batchSize > 0 && ids[|ids| - 1] == cursor
  }

  /** What the end of a batch tells: nothing left, or a later cursor. */
  lemma BatchEnd(search: Search, distance: Distance, world: World, from: nat, now: nat, after: int,
                 start: int, batchSize: nat, cursor: int, items: seq<FeedItem>, candidates: seq<Candidate>)
    requires from <= now && 0 <= after <= start && batchSize > 0 && ProfilesKeyed(world(now).tables.profiles)
    requires CoveredUpTo(search, distance, world, from, now + 1, after, cursor, items)
    requires IsListing(candidates, QueryFor(search, start, batchSize), world(now))
    requires cursor == if candidates == [] then start else candidates[|candidates| - 1].profile.id
    ensures |candidates| < batchSize ==> AllCovered(search, distance, world, from, now + 1, after, items)
    ensures |candidates| >= batchSize ==>
              start < cursor && FullBatch(search, world(now), start, batchSize, cursor)
  {
    ListedBelow(QueryFor(search, start, batchSize), world(now));
    if |candidates| < batchSize {
      ShortBatchEndsScan(search, distance, world, from, now, after, start, batchSize, cursor, items);
    } else {
      NextListed(search, world(now), start, batchSize, |candidates| - 1);
      BatchIsFresh(search, world(now), after, start, batchSize);
    }
  }

  /** One turn of the outer loop; last says that the loop ends with it. */
  method ScanBatch(search: Search, distance: Distance, world: World, now: nat, size: nat, batchSize: nat,
                   found: seq<FeedItem>, start: int, ghost from: nat, ghost after: int)
    returns (items: seq<FeedItem>, scanCursor: int, last: bool)
    requires from <= now && 0 <= after <= start <= MAX_INT64 && |found| < size && batchSize > 0
    requires ProfilesKeyed(world(now).tables.profiles)
    requires CoveredUpTo(search, distance, world, from, now, after, start, found)
    ensures |items| <= size && start <= scanCursor <= MAX_INT64
    ensures CoveredUpTo(search, distance, world, from, now + 1, after, scanCursor, items)
    ensures last && |items| < size ==> AllCovered(search, distance, world, from, now + 1, after, items)
    ensures |items| == size ==> last
    ensures !last ==> start < scanCursor && FullBatch(search, world(now), start, batchSize, scanCursor)
  {
    var candidates := ListCandidates(QueryFor(search, start, batchSize), world(now));
    CoveredLonger(search, distance, world, from, now, after, start, found);
    items, scanCursor := KeepNear(search, distance, candidates, size, found, start, world, from, now, after, batchSize);
    last := candidates == [] || |items| == size || |candidates| < batchSize;
    if |items| < size {
      BatchEnd(search, distance, world, from, now, after, start, batchSize, scanCursor, items, candidates);
    }
  }

  lemma CountTurn(search: Search, at: Snapshot, after: int, queries: nat, start: int, batchSize: nat,
                  cursor: int, last: bool, consumed: set<int>) returns (more: set<int>)
    requires 0 <= after <= start && ProfilesKeyed(at.tables.profiles)
    requires BatchesCounted(search, at, after, queries - 1, batchSize, start, consumed)
    requires !last ==> FullBatch(search, at, start, batchSize, cursor)
    ensures QueriesBounded(queries, batchSize, RowsAfter(search, at, after))
    ensures !last ==> BatchesCounted(search, at, after, queries, batchSize, cursor, more)
  {
    BatchesBounded(search, at, after, queries, batchSize, start, consumed);
    more := consumed;
    if !last {
      more := FullBatchCounted(search, at, after, queries - 1, start, batchSize, consumed);
    }
  }

  /** On unchanging tables: how far the count of queries has come; a scan that goes on has
      used up one full batch a query. */
  ghost predicate QueriesCounted(search: Search, world: World, from: nat, to: nat, after: int, batchSize: nat,
                                 cursor: int, consumed: set<int>, ended: bool)
  {
    Unchanging(world, from, to) ==>
      && (from < to ==> QueriesBounded(to - from, batchSize, RowsAfter(search, world(from), after)))
      && (!ended ==> BatchesCounted(search, world(from), after, to - from, batchSize, cursor, consumed))
  }

  lemma CountQuery(search: Search, world: World, from: nat, to: nat, after: int, batchSize: nat,
                   start: int, cursor: int, last: bool, consumed: set<int>) returns (more: set<int>)
    requires from <= to && 0 <= after <= start && ProfilesKeyed(world(from).tables.profiles)
    requires QueriesCounted(search, world, from, to, after, batchSize, start, consumed, false)
    requires !last ==> FullBatch(search, world(to), start, batchSize, cursor)
    ensures QueriesCounted(search, world, from, to + 1, after, batchSize, cursor, more, last)
  {
    more := consumed;
    if Unchanging(world, from, to + 1) {
      assert world(to) == world(from);
      assert Unchanging(world, from, to);
      more := CountTurn(search, world(from), after, to + 1 - from, start, batchSize, cursor, last, consumed);
    }
  }

  lemma PageIsComplete(search: Search, distance: Distance, world: World, from: nat, to: nat,
                       after: int, size: nat, cursor: int, items: seq<FeedItem>)
    requires |items| <= size && 0 < size && after <= cursor
    requires CoveredUpTo(search, distance, world, from, to, after, cursor, items)
    requires |items| < size ==> AllCovered(search, distance, world, from, to, after, items)
    ensures IsFeedPage(search, distance, world, from, to, after, size, items)
  {
  }

  /** Scan for a page of size items after a cursor: batches until the page is full
      or a batch is short. world(k) is what the k-th statement sees. */
  method ScanFeed(search: Search, distance: Distance, size: nat, batchSize: nat, after: int, world: World, from: nat)
    returns (items: seq<FeedItem>, to: nat)
    requires Keyed(world) && 0 < size && 0 < batchSize && 0 <= after <= MAX_INT64
    ensures from < to
    ensures IsFeedPage(search, distance, world, from, to, after, size, items)
    ensures Unchanging(world, from, to) ==> QueriesBounded(to - from, batchSize, RowsAfter(search, world(from), after))
  {
    to := from;
    items := [];
    var scanCursor := after;
    ghost var consumed: set<int> := {};
    while |items| < size
      invariant from <= to && |items| < size
      invariant after <= scanCursor <= MAX_INT64
      invariant CoveredUpTo(search, distance, world, from, to, after, scanCursor, items)
      invariant QueriesCounted(search, world, from, to, after, batchSize, scanCursor, consumed, false)
      decreases MAX_INT64 - scanCursor
    {
      ghost var start := scanCursor;
      var last;
      items, scanCursor, last := ScanBatch(search, distance, world, to, size, batchSize, items, scanCursor, from, after);
      consumed := CountQuery(search, world, from, to, after, batchSize, start, scanCursor, last, consumed);
      to := to + 1;
      if last {
        break;
      }
    }
    PageIsComplete(search, distance, world, from, to, after, size, scanCursor, items);
  }
}
