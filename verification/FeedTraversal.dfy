/** A client that follows next_cursor page by page. */
module FeedTraversal {
  import opened Common
  import opened Cursors
  import opened Schema
  import opened CandidateQuery
  import opened Feed
  import opened FeedRequest

  /** One answered request; limit is the normalised one. */
  datatype Page = Page(search: Search, from: nat, to: nat, cursor: string, limit: nat, output: FeedOutput)

  /** The page is one GetFeed can answer with (its postcondition). */
  ghost predicate IsServed(distance: Distance, world: World, page: Page) {
    var after := ParseCursor(page.cursor);
    && page.limit > 0 && page.from < page.to && after.Success?
    && IsFeedPage(page.search, distance, world, page.from, page.to, after.value, page.limit, page.output.items)
    && page.output.nextCursor == NextCursor(page.output.items, page.limit)
  }

  /** Each request carries the cursor the page before answered with. Tables, limit
      and even the viewer's own settings may change from page to page. */
  ghost predicate IsTraversal(distance: Distance, world: World, pages: seq<Page>, after: int) {
    && pages != []
    && IsServed(distance, world, pages[0])
    && ParseCursor(pages[0].cursor) == Success(after)
    && (|pages| > 1 ==>
          && pages[0].output.nextCursor != ""
          && pages[1].cursor == pages[0].output.nextCursor
          && pages[0].to <= pages[1].from
          && ParseCursor(pages[1].cursor).Success?
          && IsTraversal(distance, world, pages[1..], ParseCursor(pages[1].cursor).value))
  }

  predicate IsFinished(pages: seq<Page>) {
    pages != [] && pages[|pages| - 1].output.nextCursor == ""
  }

  function AllItems(pages: seq<Page>): seq<FeedItem> {
    if pages == [] then [] else pages[0].output.items + AllItems(pages[1..])
  }

  ghost predicate ShownAtEveryQuery(distance: Distance, world: World, pages: seq<Page>, id: int) {
    forall i :: 0 <= i < |pages| ==>
      ShownThroughout(pages[i].search, distance, world, pages[i].from, pages[i].to, id)
  }

  /** A non-empty next_cursor names the last item of a full page. */
  lemma CursorNamesLastItem(distance: Distance, world: World, page: Page)
    requires Keyed(world) && IsServed(distance, world, page)
    ensures page.output.nextCursor != "" <==> |page.output.items| == page.limit
    ensures page.output.nextCursor != "" ==>
              ParseCursor(page.output.nextCursor) == Success(ItemId(page.output.items[|page.output.items| - 1]))
  {
    var items := page.output.items;
    if |items| == page.limit {
      var item := items[|items| - 1];
      assert item in items;
      assert SeenDuring(page.search, distance, world, page.from, page.to, item);
      var k: nat :| page.from <= k < page.to && ShownAs(page.search, distance, world(k), item);
      assert 1 <= ItemId(item) <= MAX_INT64;
      FormatIsDigits(ItemId(item));
      CursorRoundTrip(ItemId(item));
    }
  }

  lemma IdsConcat(a: seq<FeedItem>, b: seq<FeedItem>)
    ensures Ids(a + b) == Ids(a) + Ids(b)
  {
  }

  /** The first page, and where the rest carries on. */
  lemma TraversalStep(distance: Distance, world: World, pages: seq<Page>, after: int)
    requires Keyed(world) && IsTraversal(distance, world, pages, after)
    ensures AscendsAbove(Ids(pages[0].output.items), after)
    ensures |pages| > 1 ==>
              && pages[0].output.items != []
              && IsTraversal(distance, world, pages[1..], ItemId(pages[0].output.items[|pages[0].output.items| - 1]))
              && (IsFinished(pages) ==> IsFinished(pages[1..]))
  {
    PageStartsAfter(distance, world, pages[0], after);
    CursorNamesLastItem(distance, world, pages[0]);
  }

  /** The ids of the pages, each page going on where the one before stopped. */
  ghost predicate Chain(lists: seq<seq<int>>, after: int) {
    && lists != []
    && AscendsAbove(lists[0], after)
    && (|lists| > 1 ==> lists[0] != [] && Chain(lists[1..], lists[0][|lists[0]| - 1]))
  }

  lemma {:induction false} TraversalChains(distance: Distance, world: World, pages: seq<Page>, after: int)
    requires Keyed(world) && IsTraversal(distance, world, pages, after)
    ensures Chain(PageIds(pages), after)
  {
    if |pages| > 1 {
      var next := TraversalNext(distance, world, pages, after);
      TraversalChains(distance, world, pages[1..], next);
    }
    TraversalChainStep(distance, world, pages, after);
  }

  lemma TraversalNext(distance: Distance, world: World, pages: seq<Page>, after: int) returns (next: int)
    requires Keyed(world) && IsTraversal(distance, world, pages, after) && |pages| > 1
    ensures pages[0].output.items != [] && next == ItemId(pages[0].output.items[|pages[0].output.items| - 1])
    ensures IsTraversal(distance, world, pages[1..], next)
  {
    TraversalStep(distance, world, pages, after);
    next := ItemId(pages[0].output.items[|pages[0].output.items| - 1]);
  }

  lemma TraversalChainStep(distance: Distance, world: World, pages: seq<Page>, after: int)
    requires Keyed(world) && IsTraversal(distance, world, pages, after)
    requires var items := pages[0].output.items;
             |pages| > 1 && items != [] ==> Chain(PageIds(pages[1..]), ItemId(items[|items| - 1]))
    ensures Chain(PageIds(pages), after)
  {
    TraversalStep(distance, world, pages, after);
    ItemsThenRest(pages, after);
  }

  /** On the pages alone, whatever they were answers to. */
  lemma ItemsThenRest(pages: seq<Page>, after: int)
    requires pages != [] && AscendsAbove(Ids(pages[0].output.items), after)
    requires var items := pages[0].output.items;
             |pages| > 1 ==> items != [] && Chain(PageIds(pages[1..]), ItemId(items[|items| - 1]))
    ensures Chain(PageIds(pages), after)
  {
    PageIdsCons(pages);
    ChainCons(Ids(pages[0].output.items), PageIds(pages[1..]), after);
  }

  lemma PageIdsCons(pages: seq<Page>)
    requires pages != []
    ensures PageIds(pages) == [Ids(pages[0].output.items)] + PageIds(pages[1..])
  {
  }

  lemma ChainCons(first: seq<int>, rest: seq<seq<int>>, after: int)
    requires AscendsAbove(first, after) && (rest != [] ==> first != [] && Chain(rest, first[|first| - 1]))
    ensures Chain([first] + rest, after)
  {
    assert ([first] + rest)[1..] == rest;
  }

  lemma {:induction false} ChainAscends(lists: seq<seq<int>>, after: int)
    requires Chain(lists, after)
    ensures AscendsAbove(Flatten(lists), after)
  {
    if |lists| > 1 {
      ChainAscends(lists[1..], lists[0][|lists[0]| - 1]);
      AscendsConcat(lists[0], Flatten(lists[1..]), after);
    } else {
      assert Flatten(lists[1..]) == [];
      assert Flatten(lists) == lists[0];
    }
  }

  /** However the tables change between statements, no profile is repeated and
      the order is ascending. */
  lemma TraversalAscends(distance: Distance, world: World, pages: seq<Page>, after: int)
    requires Keyed(world) && IsTraversal(distance, world, pages, after)
    ensures AscendsAbove(Ids(AllItems(pages)), after)
  {
    TraversalChains(distance, world, pages, after);
    ChainAscends(PageIds(pages), after);
    AllItemsFlatten(pages);
  }

  lemma PageStartsAfter(distance: Distance, world: World, page: Page, after: int)
    requires IsServed(distance, world, page) && ParseCursor(page.cursor) == Success(after)
    ensures AscendsAbove(Ids(page.output.items), after)
  {
    var items := page.output.items;
    forall id | id in Ids(items) ensures id > after {
      var i :| 0 <= i < |items| && Ids(items)[i] == id;
      assert items[i] in items;
    }
  }

  /** A profile that belonged in the feed at every statement of a finished traversal
      was shown exactly once. */
  lemma {:induction false} TraversalIsComplete(distance: Distance, world: World, pages: seq<Page>, after: int, id: int)
    requires Keyed(world) && IsTraversal(distance, world, pages, after) && IsFinished(pages)
    requires id > after && ShownAtEveryQuery(distance, world, pages, id)
    ensures multiset(Ids(AllItems(pages)))[id] == 1
  {
    TraversalAscends(distance, world, pages, after);
    var i := CompleteFrom(distance, world, pages, after, id);
    InFlatten(PageIds(pages), i, id);
    AllItemsFlatten(pages);
    AscendingOnce(Ids(AllItems(pages)), id);
  }

  lemma LaterQueries(distance: Distance, world: World, pages: seq<Page>, id: int)
    requires pages != [] && ShownAtEveryQuery(distance, world, pages, id)
    ensures ShownAtEveryQuery(distance, world, pages[1..], id)
    ensures ShownThroughout(pages[0].search, distance, world, pages[0].from, pages[0].to, id)
  {
  }

  /** Pages of a finished traversal that still have to show a profile. */
  ghost predicate MustShow(distance: Distance, world: World, pages: seq<Page>, after: int, id: int) {
    && IsTraversal(distance, world, pages, after) && IsFinished(pages)
    && id > after && ShownAtEveryQuery(distance, world, pages, id)
  }

  lemma FirstOfMustShow(distance: Distance, world: World, pages: seq<Page>, after: int, id: int)
    requires Keyed(world) && MustShow(distance, world, pages, after, id)
    ensures var items := pages[0].output.items;
            if |pages| == 1 then id in Ids(items)
            else items != [] && (id <= ItemId(items[|items| - 1]) ==> id in Ids(items))
  {
    LaterQueries(distance, world, pages, id);
    FirstPageHas(distance, world, pages[0], after, id);
  }

  lemma RestOfMustShow(distance: Distance, world: World, pages: seq<Page>, after: int, id: int, last: int)
    requires Keyed(world) && MustShow(distance, world, pages, after, id) && |pages| > 1 && id > last
    requires pages[0].output.items != [] && last == ItemId(pages[0].output.items[|pages[0].output.items| - 1])
    ensures MustShow(distance, world, pages[1..], last, id)
  {
    TraversalStep(distance, world, pages, after);
    LaterQueries(distance, world, pages, id);
  }

  /** The page that shows the profile. */
  lemma {:induction false} CompleteFrom(distance: Distance, world: World, pages: seq<Page>, after: int, id: int)
    returns (i: nat)
    requires Keyed(world) && MustShow(distance, world, pages, after, id)
    ensures i < |pages| && id in Ids(pages[i].output.items)
    decreases |pages|
  {
    i := 0;
    FirstOfMustShow(distance, world, pages, after, id);
    if id !in Ids(pages[0].output.items) {
      var items := pages[0].output.items;
      RestOfMustShow(distance, world, pages, after, id, ItemId(items[|items| - 1]));
      var k := CompleteFrom(distance, world, pages[1..], ItemId(items[|items| - 1]), id);
      i := k + 1;
    }
  }

  lemma {:induction false} InFlatten(lists: seq<seq<int>>, i: nat, id: int)
    requires i < |lists| && id in lists[i]
    ensures id in Flatten(lists)
  {
    if i > 0 {
      InFlatten(lists[1..], i - 1, id);
    }
  }

  lemma FirstPageHas(distance: Distance, world: World, page: Page, after: int, id: int)
    requires Keyed(world) && IsServed(distance, world, page) && ParseCursor(page.cursor) == Success(after)
    requires id > after && ShownThroughout(page.search, distance, world, page.from, page.to, id)
    ensures var items := page.output.items;
            if page.output.nextCursor == "" then id in Ids(items)
            else && items != []
                 && ParseCursor(page.output.nextCursor) == Success(ItemId(items[|items| - 1]))
                 && (id <= ItemId(items[|items| - 1]) ==> id in Ids(items))
  {
    CursorNamesLastItem(distance, world, page);
  }

  // ----- Tables that stay as they are -----

  function FeedSet(search: Search, distance: Distance, at: Snapshot, after: int): set<int> {
    set id | id in at.tables.profiles && id > after && Shown(search, distance, at, id)
  }

  /** The whole feed after a cursor: filtered, then sorted. */
  function WholeFeed(search: Search, distance: Distance, at: Snapshot, after: int): seq<int> {
    SortedIds(FeedSet(search, distance, at, after))
  }

  ghost predicate SeesOnly(world: World, from: nat, to: nat, at: Snapshot) {
    forall k: nat :: from <= k < to ==> world(k) == at
  }

  lemma PrefixOfAscending(s: seq<int>, whole: seq<int>, limit: nat)
    requires Ascending(s) && Ascending(whole) && |s| <= limit
    requires forall x :: x in s ==> x in whole
    requires forall x :: x in whole && (|s| == limit ==> s == [] || x <= s[|s| - 1]) ==> x in s
    requires limit > 0
    ensures s == Take(whole, limit)
  {
    if |s| < limit {
      AscendingUnique(s, whole);
    } else {
      var last := s[|s| - 1];
      assert last in s;
      var n :| 0 <= n < |whole| && whole[n] == last;
      var front := whole[..n + 1];
      forall x ensures x in s <==> x in front {
        if x in s {
          var i :| 0 <= i < |s| && s[i] == x;
          var m :| 0 <= m < |whole| && whole[m] == x;
          assert x <= last;
          assert m <= n;
          assert front[m] == x;
        }
        if x in front {
          var m :| 0 <= m <= n && whole[m] == x;
          assert x in whole && x <= last;
        }
      }
      AscendingUnique(s, front);
      assert |s| == n + 1 == limit;
    }
  }

  /** whole is the feed after a cursor, in order. */
  ghost predicate Lists(whole: seq<int>, search: Search, distance: Distance, at: Snapshot, after: int) {
    && Ascending(whole)
    && forall id :: id in whole <==> id > after && Shown(search, distance, at, id)
  }

  lemma WholeFeedLists(search: Search, distance: Distance, at: Snapshot, after: int)
    ensures Lists(WholeFeed(search, distance, at, after), search, distance, at, after)
  {
  }

  /** On one snapshot a page is exactly the first limit profiles of the whole feed
      after its cursor, each as the snapshot has it. */
  lemma PageIsFirstOfFeed(search: Search, distance: Distance, world: World, from: nat, to: nat,
                          after: int, limit: nat, items: seq<FeedItem>, at: Snapshot, whole: seq<int>)
    requires IsFeedPage(search, distance, world, from, to, after, limit, items)
    requires from < to && limit > 0 && SeesOnly(world, from, to, at)
    requires Lists(whole, search, distance, at, after)
    ensures Ids(items) == Take(whole, limit)
    ensures forall item :: item in items ==> ShownAs(search, distance, at, item)
  {
    forall item | item in items ensures ShownAs(search, distance, at, item) {
      assert SeenDuring(search, distance, world, from, to, item);
    }
    forall x | x in Ids(items) ensures x in whole {
      var i :| 0 <= i < |items| && Ids(items)[i] == x;
      assert items[i] in items;
    }
    forall x | x in whole && (|items| == limit ==> items == [] || x <= Ids(items)[|items| - 1]) ensures x in Ids(items) {
      assert ShownThroughout(search, distance, world, from, to, x);
    }
    PrefixOfAscending(Ids(items), whole, limit);
  }

  lemma ListsAfterPage(whole: seq<int>, search: Search, distance: Distance, at: Snapshot, after: int, n: nat)
    requires Lists(whole, search, distance, at, after) && 0 < n <= |whole|
    ensures Lists(whole[n..], search, distance, at, whole[n - 1])
  {
    assert whole[n - 1] in whole;
    forall id ensures id in whole[n..] <==> id in whole && id > whole[n - 1] {
      if id in whole[n..] {
        var m :| n <= m < |whole| && whole[m] == id;
      }
      if id in whole && id > whole[n - 1] {
        var m :| 0 <= m < |whole| && whole[m] == id;
        assert whole[n..][m - n] == id;
      }
    }
  }

  ghost predicate OneSnapshot(world: World, pages: seq<Page>, search: Search, limit: nat, at: Snapshot) {
    forall i :: 0 <= i < |pages| ==>
      pages[i].search == search && pages[i].limit == limit && SeesOnly(world, pages[i].from, pages[i].to, at)
  }

  function PageIds(pages: seq<Page>): (ids: seq<seq<int>>)
    ensures |ids| == |pages|
  {
    seq(|pages|, i requires 0 <= i < |pages| => Ids(pages[i].output.items))
  }

  lemma {:induction false} AllItemsFlatten(pages: seq<Page>)
    ensures Ids(AllItems(pages)) == Flatten(PageIds(pages))
  {
    if pages != [] {
      AllItemsFlatten(pages[1..]);
      IdsConcat(pages[0].output.items, AllItems(pages[1..]));
      assert PageIds(pages)[1..] == PageIds(pages[1..]);
    }
  }

  /** One page of a traversal over one snapshot, and where the next one starts. */
  lemma SnapshotPage(distance: Distance, world: World, page: Page, after: int, at: Snapshot, whole: seq<int>)
    requires Keyed(world) && IsServed(distance, world, page) && ParseCursor(page.cursor) == Success(after)
    requires SeesOnly(world, page.from, page.to, at)
    requires Lists(whole, page.search, distance, at, after)
    ensures Ids(page.output.items) == Take(whole, page.limit)
    ensures page.output.nextCursor == "" <==> |whole| < page.limit
    ensures page.output.nextCursor != "" ==> ParseCursor(page.output.nextCursor) == Success(whole[page.limit - 1])
  {
    PageIsFirstOfFeed(page.search, distance, world, page.from, page.to, after, page.limit, page.output.items, at, whole);
    CursorNamesLastItem(distance, world, page);
    if |page.output.items| == page.limit {
      assert Ids(page.output.items)[page.limit - 1] == ItemId(page.output.items[|page.output.items| - 1]);
    }
  }

  lemma {:induction false} SnapshotCuts(distance: Distance, world: World, pages: seq<Page>, after: int,
                                        search: Search, limit: nat, at: Snapshot, whole: seq<int>)
    requires Keyed(world) && IsTraversal(distance, world, pages, after) && IsFinished(pages)
    requires limit > 0 && OneSnapshot(world, pages, search, limit, at)
    requires Lists(whole, search, distance, at, after)
    ensures IsCut(PageIds(pages), whole, limit, 0)
  {
    SnapshotPage(distance, world, pages[0], after, at, whole);
    if |pages| > 1 {
      ListsAfterPage(whole, search, distance, at, after, limit);
      SnapshotCuts(distance, world, pages[1..], whole[limit - 1], search, limit, at, whole[limit..]);
      assert PageIds(pages)[1..] == PageIds(pages[1..]);
    }
  }

  /** On one snapshot the pages of a finished traversal put together are the whole
      feed, in F / limit + 1 pages: a last empty page when limit divides F. */
  lemma SnapshotTraversal(distance: Distance, world: World, pages: seq<Page>, after: int,
                          search: Search, limit: nat, at: Snapshot)
    requires Keyed(world) && IsTraversal(distance, world, pages, after) && IsFinished(pages)
    requires limit > 0 && OneSnapshot(world, pages, search, limit, at)
    ensures Ids(AllItems(pages)) == WholeFeed(search, distance, at, after)
    ensures (|pages| - 1) * limit <= |WholeFeed(search, distance, at, after)| < |pages| * limit
  {
    var whole := WholeFeed(search, distance, at, after);
    WholeFeedLists(search, distance, at, after);
    SnapshotCuts(distance, world, pages, after, search, limit, at, whole);
    CutCovers(PageIds(pages), whole, limit, 0);
    AllItemsFlatten(pages);
  }

  /** Full pages from the beginning of a list. */
  ghost predicate FullPages(lists: seq<seq<int>>, whole: seq<int>, limit: nat) {
    lists == [] || (|whole| >= limit && lists[0] == whole[..limit] && FullPages(lists[1..], whole[limit..], limit))
  }

  lemma {:induction false} FullPagesPrefix(lists: seq<seq<int>>, whole: seq<int>, limit: nat)
    requires FullPages(lists, whole, limit)
    ensures |Flatten(lists)| == |lists| * limit && Flatten(lists) <= whole
  {
    if lists != [] {
      FullPagesPrefix(lists[1..], whole[limit..], limit);
      OneMorePage(|lists|, limit);
      assert whole == whole[..limit] + whole[limit..];
    }
  }

  /** What an unfinished traversal of one snapshot still is after its first page. */
  ghost predicate Unfinished(distance: Distance, world: World, pages: seq<Page>, after: int,
                             search: Search, limit: nat, at: Snapshot, whole: seq<int>)
  {
    && IsTraversal(distance, world, pages, after) && !IsFinished(pages)
    && OneSnapshot(world, pages, search, limit, at) && Lists(whole, search, distance, at, after)
  }

  lemma UnfinishedFirst(distance: Distance, world: World, pages: seq<Page>, after: int,
                        search: Search, limit: nat, at: Snapshot, whole: seq<int>)
    requires Keyed(world) && limit > 0 && Unfinished(distance, world, pages, after, search, limit, at, whole)
    ensures |whole| >= limit && Ids(pages[0].output.items) == whole[..limit]
  {
    SnapshotPage(distance, world, pages[0], after, at, whole);
  }

  lemma UnfinishedRest(distance: Distance, world: World, pages: seq<Page>, after: int,
                       search: Search, limit: nat, at: Snapshot, whole: seq<int>)
    requires Keyed(world) && limit > 0 && Unfinished(distance, world, pages, after, search, limit, at, whole)
    requires |pages| > 1 && |whole| >= limit
    ensures Unfinished(distance, world, pages[1..], whole[limit - 1], search, limit, at, whole[limit..])
  {
    SnapshotPage(distance, world, pages[0], after, at, whole);
    ListsAfterPage(whole, search, distance, at, after, limit);
  }

  lemma {:induction false} UnfinishedPagesAreFull(distance: Distance, world: World, pages: seq<Page>, after: int,
                                                  search: Search, limit: nat, at: Snapshot, whole: seq<int>)
    requires Keyed(world) && limit > 0 && Unfinished(distance, world, pages, after, search, limit, at, whole)
    ensures FullPages(PageIds(pages), whole, limit)
    decreases |pages|
  {
    UnfinishedFirst(distance, world, pages, after, search, limit, at, whole);
    if |pages| > 1 {
      UnfinishedRest(distance, world, pages, after, search, limit, at, whole);
      UnfinishedPagesAreFull(distance, world, pages[1..], whole[limit - 1], search, limit, at, whole[limit..]);
    }
    PageIdsCons(pages);
    FullPagesCons(PageIds(pages[1..]), whole, limit);
  }

  lemma FullPagesCons(rest: seq<seq<int>>, whole: seq<int>, limit: nat)
    requires |whole| >= limit && FullPages(rest, whole[limit..], limit)
    ensures FullPages([whole[..limit]] + rest, whole, limit)
  {
    assert ([whole[..limit]] + rest)[1..] == rest;
  }

  /** Pages so far of a traversal that is not finished: full ones, together the beginning of
      the feed, so there are at most F / limit of them. */
  lemma UnfinishedTraversal(distance: Distance, world: World, pages: seq<Page>, after: int,
                            search: Search, limit: nat, at: Snapshot)
    requires Keyed(world) && IsTraversal(distance, world, pages, after) && !IsFinished(pages)
    requires limit > 0 && OneSnapshot(world, pages, search, limit, at)
    ensures Ids(AllItems(pages)) <= WholeFeed(search, distance, at, after)
    ensures |Ids(AllItems(pages))| == |pages| * limit
  {
    var whole := WholeFeed(search, distance, at, after);
    WholeFeedLists(search, distance, at, after);
    UnfinishedPagesAreFull(distance, world, pages, after, search, limit, at, whole);
    FullPagesPrefix(PageIds(pages), whole, limit);
    AllItemsFlatten(pages);
  }

  // ----- The client -----

  /** One more page that carries on from the last one. */
  lemma {:induction false} TraversalSnoc(distance: Distance, world: World, pages: seq<Page>, after: int, page: Page)
    requires IsTraversal(distance, world, pages, after) && IsServed(distance, world, page)
    requires var last := pages[|pages| - 1];
             last.output.nextCursor != "" && page.cursor == last.output.nextCursor && last.to <= page.from
    ensures IsTraversal(distance, world, pages + [page], after)
  {
    var all := pages + [page];
    if |pages| > 1 {
      TraversalSnoc(distance, world, pages[1..], ParseCursor(pages[1].cursor).value, page);
      assert all[1..] == pages[1..] + [page];
    } else {
      assert all[1..] == [page];
    }
  }

  /** One request to GetFeed. */
  method Request(viewer: int, limit: int, cursor: string, filters: Option<Filters>, profile: Option<Profile>,
                 newBounds: (real, real, int) -> Option<Bounds>, distance: Distance, world: World, from: nat)
    returns (r: Result<Page, FeedError>)
    requires Keyed(world)
    ensures var prepared := PrepareSearch(viewer, limit, cursor, filters, profile, newBounds);
            match r
            case Failure(error) => prepared == Failure(error)
            case Success(page) =>
              prepared.Success? && IsServed(distance, world, page) && page.cursor == cursor && page.from == from
              && page.search == prepared.value.0 && page.limit == prepared.value.1
  {
    var output, to := GetFeed(viewer, limit, cursor, filters, profile, newBounds, distance, world, from);
    if output.Failure? {
      return Failure(output.error);
    }
    var (search, size, _) := PrepareSearch(viewer, limit, cursor, filters, profile, newBounds).value;
    return Success(Page(search, from, to, cursor, size, output.value));
  }

  /** A cursor the feed answers with is accepted by the next request, and lies further on. */
  lemma NextRequestMovesOn(distance: Distance, world: World, page: Page, after: int)
    requires Keyed(world) && IsServed(distance, world, page) && ParseCursor(page.cursor) == Success(after)
    requires page.output.nextCursor != ""
    ensures ParseCursor(page.output.nextCursor).Success?
    ensures after < ParseCursor(page.output.nextCursor).value <= MAX_INT64
  {
    CursorNamesLastItem(distance, world, page);
    PageStartsAfter(distance, world, page, after);
    var items := page.output.items;
    assert Ids(items)[|items| - 1] in Ids(items);
    assert items[|items| - 1] in items;
    assert SeenDuring(page.search, distance, world, page.from, page.to, items[|items| - 1]);
  }

  /** The pages are answers to one search with one limit, one after the other. */
  ghost predicate IsBrowse(pages: seq<Page>, search: Search, limit: nat) {
    && pages != []
    && forall i :: 0 <= i < |pages| ==>
         pages[i].search == search && pages[i].limit == limit && pages[i].to <= pages[|pages| - 1].to
  }

  lemma BrowseSnoc(pages: seq<Page>, search: Search, limit: nat, page: Page)
    requires IsBrowse(pages, search, limit) && page.search == search && page.limit == limit
    requires pages[|pages| - 1].to <= page.from < page.to
    ensures IsBrowse(pages + [page], search, limit)
  {
  }

  /** On tables that stay as they are while the client is browsing, it collects the whole feed,
      in F / limit + 1 pages. */
  ghost predicate IsWholeFeed(pages: seq<Page>, search: Search, limit: nat, distance: Distance, at: Snapshot) {
    && Ids(AllItems(pages)) == WholeFeed(search, distance, at, 0)
    && (|pages| - 1) * limit <= |WholeFeed(search, distance, at, 0)| < |pages| * limit
  }

  /** The pages so far; the last one was asked for with a cursor that stands for after. */
  ghost predicate Browsing(distance: Distance, world: World, pages: seq<Page>, search: Search, limit: nat, after: int) {
    && IsTraversal(distance, world, pages, 0) && IsBrowse(pages, search, limit)
    && IsServed(distance, world, pages[|pages| - 1])
    && ParseCursor(pages[|pages| - 1].cursor) == Success(after) && 0 <= after <= MAX_INT64
  }

  lemma BrowsingSnoc(distance: Distance, world: World, pages: seq<Page>, search: Search, limit: nat, after: int, page: Page)
    requires Keyed(world) && Browsing(distance, world, pages, search, limit, after) && IsServed(distance, world, page)
    requires page.search == search && page.limit == limit && page.from == pages[|pages| - 1].to
    requires pages[|pages| - 1].output.nextCursor != "" && page.cursor == pages[|pages| - 1].output.nextCursor
    ensures ParseCursor(page.cursor).Success? && after < ParseCursor(page.cursor).value
    ensures Browsing(distance, world, pages + [page], search, limit, ParseCursor(page.cursor).value)
  {
    NextRequestMovesOn(distance, world, pages[|pages| - 1], after);
    TraversalSnoc(distance, world, pages, 0, page);
    BrowseSnoc(pages, search, limit, page);
  }

  lemma BrowsingEnds(distance: Distance, world: World, pages: seq<Page>, search: Search, limit: nat, after: int)
    requires Keyed(world) && Browsing(distance, world, pages, search, limit, after) && IsFinished(pages)
    ensures SeesOnly(world, 0, pages[|pages| - 1].to, world(0)) ==> IsWholeFeed(pages, search, limit, distance, world(0))
  {
    if SeesOnly(world, 0, pages[|pages| - 1].to, world(0)) {
      SnapshotTraversal(distance, world, pages, 0, search, limit, world(0));
    }
  }

  /** A client that asks for page after page until no cursor comes back: it comes to an end,
      however the tables change, and never meets an error after the first answer. */
  method Browse(viewer: int, limit: int, filters: Option<Filters>, profile: Option<Profile>,
                newBounds: (real, real, int) -> Option<Bounds>, distance: Distance, world: World)
    returns (r: Result<seq<Page>, FeedError>)
    requires Keyed(world)
    ensures var prepared := PrepareSearch(viewer, limit, "", filters, profile, newBounds);
            match r
            case Failure(error) => prepared == Failure(error)
            case Success(pages) =>
              && prepared.Success?
              && IsTraversal(distance, world, pages, 0) && IsFinished(pages)
              && IsBrowse(pages, prepared.value.0, prepared.value.1)
              && (SeesOnly(world, 0, pages[|pages| - 1].to, world(0)) ==>
                    IsWholeFeed(pages, prepared.value.0, prepared.value.1, distance, world(0)))
  {
    var first := Request(viewer, limit, "", filters, profile, newBounds, distance, world, 0);
    if first.Failure? {
      return Failure(first.error);
    }
    var pages := [first.value];
    var after := 0;
    ghost var (search, size, _) := PrepareSearch(viewer, limit, "", filters, profile, newBounds).value;
    while pages[|pages| - 1].output.nextCursor != ""
      invariant Browsing(distance, world, pages, search, size, after)
      decreases MAX_INT64 - after
    {
      var last := pages[|pages| - 1];
      var cursor := last.output.nextCursor;
      NextRequestMovesOn(distance, world, last, after);
      SameSearch(viewer, limit, "", cursor, filters, profile, newBounds);
      var next := Request(viewer, limit, cursor, filters, profile, newBounds, distance, world, last.to);
      BrowsingSnoc(distance, world, pages, search, size, after, next.value);
      pages := pages + [next.value];
      after := ParseCursor(cursor).value;
    }
    BrowsingEnds(distance, world, pages, search, size, after);
    return Success(pages);
  }

  /** What a request searches for depends on its cursor only through where it starts. */
  lemma SameSearch(viewer: int, limit: int, cursor: string, other: string, filters: Option<Filters>, profile: Option<Profile>,
                   newBounds: (real, real, int) -> Option<Bounds>)
    requires PrepareSearch(viewer, limit, cursor, filters, profile, newBounds).Success? && ParseCursor(other).Success?
    ensures var prepared, next := PrepareSearch(viewer, limit, cursor, filters, profile, newBounds),
                                  PrepareSearch(viewer, limit, other, filters, profile, newBounds);
            next.Success? && next.value.0 == prepared.value.0 && next.value.1 == prepared.value.1
  {
  }
}
