/** GetFeed as a whole, its answer told from the request and the tables alone. */
module FeedRequest {
  import opened Common
  import opened Cursors
  import opened Schema
  import opened CandidateQuery
  import opened Feed

  /** At this moment the profile is one the request asks for: it qualifies for this viewer
      and these filters inside the bounds, and lies within the distance of the viewer's own place. */
  predicate AskedFor(viewer: int, filters: Filters, latitude: real, longitude: real, bounds: Bounds,
                     distance: Distance, at: Snapshot, p: Profile)
  {
    && Qualifies(Input(viewer, filters, bounds, 0, 0), p, at)
    && p.latitude.Some? && p.longitude.Some?
    && distance(latitude, longitude, p.latitude.value, p.longitude.value) <= filters.maxDistanceKm as real
  }

  /** The item shows a profile as the tables had it, with its distance rounded to two places. */
  predicate ShowsProfile(item: FeedItem, at: Snapshot, latitude: real, longitude: real, distance: Distance) {
    var p := item.candidate.profile;
    && p.id in at.tables.profiles && p == at.tables.profiles[p.id]
    && p.userId in at.tables.users && item.candidate.isVerified == at.tables.users[p.userId]
    && p.latitude.Some? && p.longitude.Some?
    && var d := distance(latitude, longitude, p.latitude.value, p.longitude.value);
       d - 0.005 <= item.distanceKm <= d + 0.005
  }

  /** At every statement from..to the tables hold the profile, and it is asked for. */
  ghost predicate AskedForThroughout(viewer: int, filters: Filters, latitude: real, longitude: real, bounds: Bounds,
                                     distance: Distance, world: World, from: nat, to: nat, id: int)
  {
    forall k: nat :: from <= k < to ==>
      id in world(k).tables.profiles
      && AskedFor(viewer, filters, latitude, longitude, bounds, distance, world(k), world(k).tables.profiles[id])
  }

  /** The item was asked for and is shown as it was at some statement. */
  ghost predicate IsRightlyShown(viewer: int, filters: Filters, latitude: real, longitude: real, bounds: Bounds,
                                 distance: Distance, world: World, from: nat, to: nat, item: FeedItem)
  {
    exists k: nat :: from <= k < to && ShowsProfile(item, world(k), latitude, longitude, distance)
                     && AskedFor(viewer, filters, latitude, longitude, bounds, distance, world(k), item.candidate.profile)
  }

  predicate HasItem(items: seq<FeedItem>, id: int) {
    exists i :: 0 <= i < |items| && items[i].candidate.profile.id == id
  }

  /** The answer to a request with these filters from this place: at most limit items after the
      cursor, in order, each rightly shown, and every profile asked for at every statement, unless
      it comes after a full page. */
  ghost predicate AnswersRequest(viewer: int, filters: Filters, latitude: real, longitude: real, bounds: Bounds,
                                 distance: Distance, world: World, from: nat, to: nat,
                                 after: int, limit: nat, items: seq<FeedItem>)
  {
    && |items| <= limit
    && (forall i, j :: 0 <= i < j < |items| ==> items[i].candidate.profile.id < items[j].candidate.profile.id)
    && (forall item :: item in items ==> item.candidate.profile.id > after)
    && (forall item :: item in items ==>
          IsRightlyShown(viewer, filters, latitude, longitude, bounds, distance, world, from, to, item))
    && (forall id :: id > after && AskedForThroughout(viewer, filters, latitude, longitude, bounds, distance, world, from, to, id)
                     && (|items| == limit ==> items == [] || id <= items[|items| - 1].candidate.profile.id)
                     ==> HasItem(items, id))
  }

  lemma ShownIsAskedFor(search: Search, distance: Distance, at: Snapshot, item: FeedItem)
    requires ProfilesKeyed(at.tables.profiles) && ShownAs(search, distance, at, item)
    ensures ShowsProfile(item, at, search.latitude, search.longitude, distance)
    ensures AskedFor(search.viewer, search.filters, search.latitude, search.longitude, search.bounds, distance, at,
                     item.candidate.profile)
  {
  }

  lemma SeenIsRightlyShown(search: Search, distance: Distance, world: World, from: nat, to: nat, item: FeedItem)
    requires Keyed(world) && SeenDuring(search, distance, world, from, to, item)
    ensures IsRightlyShown(search.viewer, search.filters, search.latitude, search.longitude, search.bounds, distance,
                           world, from, to, item)
  {
    var k: nat :| from <= k < to && ShownAs(search, distance, world(k), item);
    ShownIsAskedFor(search, distance, world(k), item);
  }

  lemma AskedForIsShown(search: Search, distance: Distance, world: World, from: nat, to: nat, id: int)
    requires Keyed(world)
    requires AskedForThroughout(search.viewer, search.filters, search.latitude, search.longitude, search.bounds, distance,
                                world, from, to, id)
    ensures ShownThroughout(search, distance, world, from, to, id)
  {
  }

  lemma ItemAt(items: seq<FeedItem>, id: int)
    requires id in Ids(items)
    ensures HasItem(items, id)
  {
    var i :| 0 <= i < |items| && Ids(items)[i] == id;
    assert items[i].candidate.profile.id == id;
  }

  lemma IdsAscend(items: seq<FeedItem>)
    requires Ascending(Ids(items))
    ensures forall i, j :: 0 <= i < j < |items| ==> items[i].candidate.profile.id < items[j].candidate.profile.id
  {
    forall i, j | 0 <= i < j < |items|
      ensures items[i].candidate.profile.id < items[j].candidate.profile.id
    {
      assert Ids(items)[i] < Ids(items)[j];
    }
  }

  lemma PageAnswersRequest(search: Search, distance: Distance, world: World, from: nat, to: nat,
                           after: int, limit: nat, items: seq<FeedItem>)
    requires Keyed(world) && IsFeedPage(search, distance, world, from, to, after, limit, items)
    ensures AnswersRequest(search.viewer, search.filters, search.latitude, search.longitude, search.bounds, distance,
                           world, from, to, after, limit, items)
  {
    IdsAscend(items);
    forall item | item in items
      ensures item.candidate.profile.id > after
      ensures IsRightlyShown(search.viewer, search.filters, search.latitude, search.longitude, search.bounds, distance,
                             world, from, to, item)
    {
      SeenIsRightlyShown(search, distance, world, from, to, item);
    }
    forall id | id > after
      && AskedForThroughout(search.viewer, search.filters, search.latitude, search.longitude, search.bounds, distance,
                            world, from, to, id)
      && (|items| == limit ==> items == [] || id <= items[|items| - 1].candidate.profile.id)
      ensures HasItem(items, id)
    {
      AskedForIsShown(search, distance, world, from, to, id);
      ItemAt(items, id);
    }
  }

  /** GetFeed. */
  method GetFeed(viewer: int, limit: int, cursor: string, filters: Option<Filters>, profile: Option<Profile>,
                 newBounds: (real, real, int) -> Option<Bounds>, distance: Distance, world: World, from: nat)
    returns (output: Result<FeedOutput, FeedError>, to: nat)
    requires Keyed(world)
    ensures var prepared := PrepareSearch(viewer, limit, cursor, filters, profile, newBounds);
            match prepared
            case Failure(error) => output == Failure(error) && to == from
            case Success((search, size, after)) =>
              && output.Success? && from < to
              && IsFeedPage(search, distance, world, from, to, after, size, output.value.items)
              && output.value.nextCursor == NextCursor(output.value.items, size)
              && (Unchanging(world, from, to) ==> QueriesBounded(to - from, size * 3, RowsAfter(search, world(from), after)))
    ensures limit < 0 || limit > 50 ==> output == Failure(InvalidFeedLimit)
    ensures 0 <= limit <= 50 && ParseCursor(cursor).Failure? ==> output == Failure(InvalidFeedCursor)
    ensures 0 <= limit <= 50 && ParseCursor(cursor).Success? ==>
              if filters.None? then output == Failure(PreferencesNotFound)
              else if profile.None? then output == Failure(ProfileNotFound)
              else if profile.value.latitude.None? || profile.value.longitude.None? then output == Failure(CoordinatesRequired)
              else
                var latitude, longitude := profile.value.latitude.value, profile.value.longitude.value;
                var radius := if filters.value.maxDistanceKm < 100 then 100 else filters.value.maxDistanceKm;
                var bounds := newBounds(latitude, longitude, radius);
                if bounds.None? then output == Failure(InvalidBounds)
                else
                  && output.Success?
                  && AnswersRequest(viewer, filters.value, latitude, longitude, bounds.value, distance, world, from, to,
                                    ParseCursor(cursor).value, if limit == 0 then 20 else limit, output.value.items)
  {
    var prepared := PrepareSearch(viewer, limit, cursor, filters, profile, newBounds);
    if prepared.Failure? {
      return Failure(prepared.error), from;
    }
    var (search, size, after) := prepared.value;
    var items;
    items, to := ScanFeed(search, distance, size, size * 3, after, world, from);
    PageAnswersRequest(search, distance, world, from, to, after, size, items);
    output := Success(FeedOutput(items, NextCursor(items, size)));
  }
}
