/** Pages that fetch one row more than they show: chats, messages, incoming likes. */
module Paging {
  import opened Common
  import opened Cursors
  import opened Schema
  import opened Feed

  datatype Page<T> = Page(items: seq<T>, nextCursor: string)

  /** The page made of limit + 1 fetched rows. */
  function PageOf<T>(values: seq<T>, limit: nat, getId: T -> int): Page<T>
    requires limit > 0 && forall v :: v in values ==> getId(v) >= 0
  {
    if |values| > limit then
      assert values[limit - 1] in values;
      Page(values[..limit], FormatInt(getId(values[limit - 1])))
    else Page(values, "")
  }

  /** makeChatPage; GetIncomingLikes runs the same loop. */
  method MakePage<T>(values: seq<T>, limit: nat, getId: T -> int) returns (page: Page<T>)
    requires limit > 0 && forall v :: v in values ==> getId(v) >= 0
    ensures page == PageOf(values, limit, getId)
  {
    var items, nextCursor := [], "";
    for index := 0 to |values|
      invariant index <= limit && items == values[..index] && nextCursor == ""
    {
      if index == limit {
        assert items[|items| - 1] in values;
        nextCursor := FormatInt(getId(items[|items| - 1]));
        break;
      }
      items := items + [values[index]];
    }
    page := Page(items, nextCursor);
  }

  const DEFAULT_PAGE_LIMIT := 20
  const MAXIMUM_PAGE_LIMIT := 50

  /** normalizeChatPage; a limit out of range is reported as an invalid cursor. */
  function NormalizeChatPage(limit: int, cursor: string): Result<(nat, int), CursorError> {
    var size := if limit == 0 then DEFAULT_PAGE_LIMIT else limit;
    if size < 1 || size > MAXIMUM_PAGE_LIMIT then Failure(InvalidCursor)
    else
      match ParseCursor(cursor)
      case Failure(error) => Failure(error)
      case Success(after) => Success((size, after))
  }

  // ----- Following cursors over a table -----

  function KeysOf<T>(rows: seq<T>, getId: T -> int): (keys: seq<int>)
    ensures |keys| == |rows|
  {
    seq(|rows|, i requires 0 <= i < |rows| => getId(rows[i]))
  }

  const IDENTITY := (id: int) => id

  /** The identifiers of a table in order; positive int64. */
  ghost predicate IsKeyList(keys: seq<int>) {
    Ascending(keys) && forall i :: 0 <= i < |keys| ==> 1 <= keys[i] <= MAX_INT64
  }

  /** WHERE id > cursor on an ordered list. */
  function Above(keys: seq<int>, cursor: int): seq<int>
  {
    if keys == [] || keys[0] > cursor then keys else Above(keys[1..], cursor)
  }

  lemma {:induction false} AboveMeaning(keys: seq<int>, cursor: int)
    requires IsKeyList(keys)
    ensures IsKeyList(Above(keys, cursor))
    ensures forall x :: x in Above(keys, cursor) <==> x in keys && x > cursor
  {
    if keys != [] {
      assert keys == [keys[0]] + keys[1..];
      if keys[0] <= cursor {
        AboveMeaning(keys[1..], cursor);
      }
    }
  }

  lemma {:induction false} AboveAgain(keys: seq<int>, cursor: int, n: nat)
    requires IsKeyList(keys) && 0 < n <= |Above(keys, cursor)|
    ensures Above(keys, Above(keys, cursor)[n - 1]) == Above(keys, cursor)[n..]
  {
    if keys[0] <= cursor {
      AboveAgain(keys[1..], cursor, n);
      AboveMeaning(keys[1..], cursor);
      assert Above(keys, cursor)[n - 1] in Above(keys[1..], cursor);
    } else if n > 1 {
      AboveAgain(keys[1..], keys[0], n - 1);
      assert Above(keys[1..], keys[0]) == keys[1..];
    }
  }

  /** The page answered for a cursor over a table with these identifiers: limit + 1 rows are fetched. */
  function KeyPage(keys: seq<int>, cursor: int, limit: nat): Page<int>
    requires limit > 0 && forall v :: v in Take(Above(keys, cursor), limit + 1) ==> IDENTITY(v) >= 0
  {
    PageOf(Take(Above(keys, cursor), limit + 1), limit, IDENTITY)
  }

  lemma KeyPageMeaning(keys: seq<int>, cursor: int, limit: nat)
    requires IsKeyList(keys) && limit > 0
    ensures forall v :: v in Take(Above(keys, cursor), limit + 1) ==> IDENTITY(v) >= 0
    ensures var above, page := Above(keys, cursor), KeyPage(keys, cursor, limit);
            && page.items == Take(above, limit)
            && (page.nextCursor == "" <==> |above| <= limit)
            && (|above| > limit ==> ParseCursor(page.nextCursor) == Success(above[limit - 1]) && above[limit - 1] > cursor)
  {
    var above := Above(keys, cursor);
    AboveMeaning(keys, cursor);
    var fetched := Take(above, limit + 1);
    forall v | v in fetched ensures v >= 0 {
      var i :| 0 <= i < |fetched| && fetched[i] == v;
      assert above[i] == v;
    }
    if |above| > limit {
      assert above[limit - 1] in above;
      FormatIsDigits(above[limit - 1]);
      CursorRoundTrip(above[limit - 1]);
    }
  }

  /** The pages a client gets by following cursors; table(k) is what the k-th request sees. */
  function Follow(table: nat -> seq<int>, k: nat, cursor: int, limit: nat): (pages: seq<seq<int>>)
    requires limit > 0 && forall n: nat :: IsKeyList(table(n))
    decreases if cursor < MAX_INT64 then MAX_INT64 - cursor else 0
  {
    KeyPageMeaning(table(k), cursor, limit);
    AboveMeaning(table(k), cursor);
    var page := KeyPage(table(k), cursor, limit);
    if page.nextCursor == "" then [page.items]
    else [page.items] + Follow(table, k + 1, ParseCursor(page.nextCursor).value, limit)
  }

  /** One step of Follow, with the cursor text decoded. */
  lemma FollowStep(table: nat -> seq<int>, k: nat, cursor: int, limit: nat)
    requires limit > 0 && forall n: nat :: IsKeyList(table(n))
    ensures var above := Above(table(k), cursor);
            && (|above| > limit ==> cursor < above[limit - 1] <= MAX_INT64)
            && Follow(table, k, cursor, limit)
               == if |above| <= limit then [above]
                  else [above[..limit]] + Follow(table, k + 1, above[limit - 1], limit)
  {
    KeyPageMeaning(table(k), cursor, limit);
    AboveMeaning(table(k), cursor);
  }

  lemma FlattenCons(first: seq<int>, rest: seq<seq<int>>)
    ensures Flatten([first] + rest) == first + Flatten(rest)
    ensures Flatten([first]) == first
  {
    assert ([first] + rest)[1..] == rest;
    assert Flatten([first]) == first + Flatten([first][1..]);
  }

  /** What a client has seen in the end, one page at a time. */
  lemma FollowFlat(table: nat -> seq<int>, k: nat, cursor: int, limit: nat)
    requires limit > 0 && forall n: nat :: IsKeyList(table(n))
    ensures var above := Above(table(k), cursor);
            && (|above| > limit ==> cursor < above[limit - 1] <= MAX_INT64)
            && Flatten(Follow(table, k, cursor, limit))
               == if |above| <= limit then above
                  else above[..limit] + Flatten(Follow(table, k + 1, above[limit - 1], limit))
  {
    var above := Above(table(k), cursor);
    FollowStep(table, k, cursor, limit);
    if |above| <= limit {
      FlattenCons(above, []);
    } else {
      FlattenCons(above[..limit], Follow(table, k + 1, above[limit - 1], limit));
    }
  }

  lemma FirstPageAscends(keys: seq<int>, cursor: int, limit: nat)
    requires IsKeyList(keys)
    ensures AscendsAbove(Take(Above(keys, cursor), limit), cursor)
  {
    AboveMeaning(keys, cursor);
    var above := Above(keys, cursor);
    forall i | 0 <= i < |above| ensures above[i] > cursor {
      assert above[i] in above;
    }
  }

  lemma NextCursorInRange(keys: seq<int>, cursor: int, limit: nat)
    requires IsKeyList(keys) && |Above(keys, cursor)| > limit > 0
    ensures cursor < Above(keys, cursor)[limit - 1] <= MAX_INT64
  {
    AboveMeaning(keys, cursor);
    assert Above(keys, cursor)[limit - 1] in Above(keys, cursor);
  }

  lemma FirstPageThenRest(table: nat -> seq<int>, k: nat, cursor: int, limit: nat)
    requires limit > 0 && forall n: nat :: IsKeyList(table(n))
    requires var above := Above(table(k), cursor);
             |above| > limit ==> AscendsAbove(Flatten(Follow(table, k + 1, above[limit - 1], limit)), above[limit - 1])
    ensures AscendsAbove(Flatten(Follow(table, k, cursor, limit)), cursor)
  {
    var above := Above(table(k), cursor);
    FirstPageAscends(table(k), cursor, limit);
    FollowFlat(table, k, cursor, limit);
    if |above| > limit {
      AscendsConcat(above[..limit], Flatten(Follow(table, k + 1, above[limit - 1], limit)), cursor);
    }
  }

  /** Rows added or removed between requests never make a client see a row twice. */
  lemma {:induction false} FollowAscends(table: nat -> seq<int>, k: nat, cursor: int, limit: nat)
    requires limit > 0 && forall n: nat :: IsKeyList(table(n))
    ensures AscendsAbove(Flatten(Follow(table, k, cursor, limit)), cursor)
    decreases if cursor < MAX_INT64 then MAX_INT64 - cursor else 0
  {
    var above := Above(table(k), cursor);
    if |above| > limit {
      NextCursorInRange(table(k), cursor, limit);
      FollowAscends(table, k + 1, above[limit - 1], limit);
    }
    FirstPageThenRest(table, k, cursor, limit);
  }

  /** A row that is there at every request is shown exactly once. */
  lemma FollowIsComplete(table: nat -> seq<int>, k: nat, cursor: int, limit: nat, id: int)
    requires limit > 0 && (forall n: nat :: IsKeyList(table(n)))
    requires id > cursor && forall n: nat :: id in table(n)
    ensures multiset(Flatten(Follow(table, k, cursor, limit)))[id] == 1
  {
    FollowAscends(table, k, cursor, limit);
    FollowReaches(table, k, cursor, limit, id);
    AscendingOnce(Flatten(Follow(table, k, cursor, limit)), id);
  }

  /** The row is on this page, or it is shown if the following pages show it. */
  lemma ReachesOrLater(table: nat -> seq<int>, k: nat, cursor: int, limit: nat, id: int)
    requires limit > 0 && (forall n: nat :: IsKeyList(table(n)))
    requires id in table(k) && id > cursor
    ensures var above := Above(table(k), cursor);
            if |above| <= limit || id <= above[limit - 1] then id in Flatten(Follow(table, k, cursor, limit))
            else
              && cursor < above[limit - 1] <= MAX_INT64
              && (id in Flatten(Follow(table, k + 1, above[limit - 1], limit)) ==> id in Flatten(Follow(table, k, cursor, limit)))
  {
    FollowFlat(table, k, cursor, limit);
    AboveHas(table(k), cursor, id, limit);
  }

  ghost predicate AlwaysListed(table: nat -> seq<int>, id: int) {
    forall n: nat :: id in table(n)
  }

  lemma {:induction false} FollowReaches(table: nat -> seq<int>, k: nat, cursor: int, limit: nat, id: int)
    requires limit > 0 && (forall n: nat :: IsKeyList(table(n)))
    requires id > cursor && AlwaysListed(table, id)
    ensures id in Flatten(Follow(table, k, cursor, limit))
    decreases if cursor < MAX_INT64 then MAX_INT64 - cursor else 0
  {
    ReachesOrLater(table, k, cursor, limit, id);
    if |Above(table(k), cursor)| > limit && id > Above(table(k), cursor)[limit - 1] {
      FollowReaches(table, k + 1, Above(table(k), cursor)[limit - 1], limit, id);
    }
  }

  lemma AboveHas(keys: seq<int>, cursor: int, id: int, limit: nat)
    requires IsKeyList(keys) && id in keys && id > cursor && limit > 0
    ensures var above := Above(keys, cursor);
            id in above && (|above| > limit && id <= above[limit - 1] ==> id in above[..limit])
  {
    AboveMeaning(keys, cursor);
    var above := Above(keys, cursor);
    var i :| 0 <= i < |above| && above[i] == id;
    if i < limit <= |above| {
      assert above[..limit][i] == id;
    }
  }

  lemma {:induction false} FollowCuts(table: nat -> seq<int>, k: nat, cursor: int, limit: nat, keys: seq<int>)
    requires limit > 0 && IsKeyList(keys) && forall n: nat :: table(n) == keys
    ensures IsCut(Follow(table, k, cursor, limit), Above(keys, cursor), limit, 1)
    decreases if cursor < MAX_INT64 then MAX_INT64 - cursor else 0
  {
    var above := Above(keys, cursor);
    assert table(k) == keys;
    FollowStep(table, k, cursor, limit);
    if |above| <= limit {
      CutLast(above, limit);
    } else {
      AboveAgain(keys, cursor, limit);
      FollowCuts(table, k + 1, above[limit - 1], limit, keys);
      CutCons(above, Follow(table, k + 1, above[limit - 1], limit), limit);
    }
  }

  lemma CutLast(whole: seq<int>, limit: nat)
    requires |whole| <= limit
    ensures IsCut([whole], whole, limit, 1)
  {
    assert Take(whole, limit) == whole;
  }

  lemma CutCons(whole: seq<int>, rest: seq<seq<int>>, limit: nat)
    requires |whole| > limit && IsCut(rest, whole[limit..], limit, 1)
    ensures IsCut([whole[..limit]] + rest, whole, limit, 1)
  {
    assert ([whole[..limit]] + rest)[1..] == rest;
  }

  /** On an unchanging table the pages put together are the table after the cursor, in
      max(1, ceil(N / limit)) pages: no empty page trails a full one. */
  lemma FollowUnchanging(table: nat -> seq<int>, k: nat, cursor: int, limit: nat, keys: seq<int>)
    requires limit > 0 && IsKeyList(keys) && forall n: nat :: table(n) == keys
    ensures var above, pages := Above(keys, cursor), Follow(table, k, cursor, limit);
            && Flatten(pages) == above
            && |above| <= |pages| * limit
            && (|pages| > 1 ==> (|pages| - 1) * limit < |above|)
  {
    FollowCuts(table, k, cursor, limit, keys);
    CutCovers(Follow(table, k, cursor, limit), Above(keys, cursor), limit, 1);
  }

  // ----- Pages of rows -----

  /** The page shows the rows of these keys, and its cursor is theirs. */
  ghost predicate IsPageOf<T>(page: Page<T>, getId: T -> int, keys: seq<int>, cursor: int, limit: nat)
    requires limit > 0 && IsKeyList(keys)
  {
    KeyPageMeaning(keys, cursor, limit);
    KeysOf(page.items, getId) == KeyPage(keys, cursor, limit).items && page.nextCursor == KeyPage(keys, cursor, limit).nextCursor
  }

  /** The rows fetched for a page: those of the next limit + 1 keys. */
  lemma FetchedRowsMakePage<T>(rows: seq<T>, getId: T -> int, keys: seq<int>, cursor: int, limit: nat)
    requires limit > 0 && IsKeyList(keys) && KeysOf(rows, getId) == Take(Above(keys, cursor), limit + 1)
    ensures forall v :: v in rows ==> getId(v) >= 0
    ensures IsPageOf(PageOf(rows, limit, getId), getId, keys, cursor, limit)
  {
    KeyPageMeaning(keys, cursor, limit);
    AboveMeaning(keys, cursor);
    var above := Above(keys, cursor);
    forall i | 0 <= i < |rows|
      ensures getId(rows[i]) == above[i]
    {
      assert KeysOf(rows, getId)[i] == Take(above, limit + 1)[i];
    }
    assert KeysOf(PageOf(rows, limit, getId).items, getId) == Take(above, limit);
  }

  /** Pages a client collected by following the cursors of an endpoint; table(k) is the list
      of keys behind it at request k. The last page is the one without a cursor. */
  ghost predicate FollowsCursors<T>(pages: seq<Page<T>>, getId: T -> int, table: nat -> seq<int>, k: nat,
                                    cursor: int, limit: nat)
    requires limit > 0 && forall n: nat :: IsKeyList(table(n))
  {
    && pages != []
    && IsPageOf(pages[0], getId, table(k), cursor, limit)
    && (|pages| == 1 <==> pages[0].nextCursor == "")
    && (|pages| > 1 ==>
          && ParseCursor(pages[0].nextCursor).Success?
          && FollowsCursors(pages[1..], getId, table, k + 1, ParseCursor(pages[0].nextCursor).value, limit))
  }

  function PageKeys<T>(pages: seq<Page<T>>, getId: T -> int): (keys: seq<seq<int>>)
    ensures |keys| == |pages|
  {
    seq(|pages|, i requires 0 <= i < |pages| => KeysOf(pages[i].items, getId))
  }

  /** The first page, and where the rest carries on, with the cursor text decoded. */
  lemma ClientFirst<T>(pages: seq<Page<T>>, getId: T -> int, table: nat -> seq<int>, k: nat, cursor: int, limit: nat)
    requires limit > 0 && (forall n: nat :: IsKeyList(table(n)))
    requires FollowsCursors(pages, getId, table, k, cursor, limit)
    ensures var above := Above(table(k), cursor);
            && KeysOf(pages[0].items, getId) == Take(above, limit)
            && (|pages| == 1 <==> |above| <= limit)
            && (|pages| > 1 ==> FollowsCursors(pages[1..], getId, table, k + 1, above[limit - 1], limit))
  {
    KeyPageMeaning(table(k), cursor, limit);
  }

  /** The keys of the pages, told without cursors. */
  ghost predicate KeysChain(lists: seq<seq<int>>, table: nat -> seq<int>, k: nat, cursor: int, limit: nat)
    requires limit > 0
  {
    var above := Above(table(k), cursor);
    && lists != [] && lists[0] == Take(above, limit)
    && (|lists| == 1 <==> |above| <= limit)
    && (|lists| > 1 ==> KeysChain(lists[1..], table, k + 1, above[limit - 1], limit))
  }

  lemma KeysChainCons(first: seq<int>, rest: seq<seq<int>>, table: nat -> seq<int>, k: nat, cursor: int, limit: nat)
    requires limit > 0 && first == Take(Above(table(k), cursor), limit)
    requires rest == [] <==> |Above(table(k), cursor)| <= limit
    requires rest != [] ==> KeysChain(rest, table, k + 1, Above(table(k), cursor)[limit - 1], limit)
    ensures KeysChain([first] + rest, table, k, cursor, limit)
  {
    assert ([first] + rest)[1..] == rest;
  }

  lemma {:induction false} ClientKeysChain<T>(pages: seq<Page<T>>, getId: T -> int, table: nat -> seq<int>, k: nat,
                                              cursor: int, limit: nat)
    requires limit > 0 && (forall n: nat :: IsKeyList(table(n)))
    requires FollowsCursors(pages, getId, table, k, cursor, limit)
    ensures KeysChain(PageKeys(pages, getId), table, k, cursor, limit)
    decreases |pages|
  {
    if |pages| > 1 {
      var next := ClientNext(pages, getId, table, k, cursor, limit);
      ClientKeysChain(pages[1..], getId, table, k + 1, next, limit);
    }
    ClientChainStep(pages, getId, table, k, cursor, limit);
  }

  lemma ClientNext<T>(pages: seq<Page<T>>, getId: T -> int, table: nat -> seq<int>, k: nat, cursor: int, limit: nat)
    returns (next: int)
    requires limit > 0 && (forall n: nat :: IsKeyList(table(n)))
    requires FollowsCursors(pages, getId, table, k, cursor, limit) && |pages| > 1
    ensures |Above(table(k), cursor)| > limit && next == Above(table(k), cursor)[limit - 1]
    ensures FollowsCursors(pages[1..], getId, table, k + 1, next, limit)
  {
    ClientFirst(pages, getId, table, k, cursor, limit);
    next := Above(table(k), cursor)[limit - 1];
  }

  lemma ClientChainStep<T>(pages: seq<Page<T>>, getId: T -> int, table: nat -> seq<int>, k: nat, cursor: int, limit: nat)
    requires limit > 0 && (forall n: nat :: IsKeyList(table(n)))
    requires FollowsCursors(pages, getId, table, k, cursor, limit)
    requires |pages| > 1 && |Above(table(k), cursor)| > limit ==>
               KeysChain(PageKeys(pages[1..], getId), table, k + 1, Above(table(k), cursor)[limit - 1], limit)
    ensures KeysChain(PageKeys(pages, getId), table, k, cursor, limit)
  {
    ClientFirst(pages, getId, table, k, cursor, limit);
    PageKeysCons(pages, getId);
    KeysChainCons(KeysOf(pages[0].items, getId), PageKeys(pages[1..], getId), table, k, cursor, limit);
  }

  lemma {:induction false} KeysChainIsFollow(lists: seq<seq<int>>, table: nat -> seq<int>, k: nat, cursor: int, limit: nat)
    requires limit > 0 && (forall n: nat :: IsKeyList(table(n)))
    requires KeysChain(lists, table, k, cursor, limit)
    ensures lists == Follow(table, k, cursor, limit)
    decreases |lists|
  {
    FollowStep(table, k, cursor, limit);
    if |lists| > 1 {
      KeysChainIsFollow(lists[1..], table, k + 1, Above(table(k), cursor)[limit - 1], limit);
      assert lists == [lists[0]] + lists[1..];
    } else {
      assert lists == [lists[0]] && Take(Above(table(k), cursor), limit) == Above(table(k), cursor);
    }
  }

  /** What the client sees is what Follow says, so the results on Follow are about every
      endpoint whose page is the page of a list of keys. */
  lemma ClientSeesFollow<T>(pages: seq<Page<T>>, getId: T -> int, table: nat -> seq<int>, k: nat, cursor: int, limit: nat)
    requires limit > 0 && (forall n: nat :: IsKeyList(table(n)))
    requires FollowsCursors(pages, getId, table, k, cursor, limit)
    ensures PageKeys(pages, getId) == Follow(table, k, cursor, limit)
  {
    ClientKeysChain(pages, getId, table, k, cursor, limit);
    KeysChainIsFollow(PageKeys(pages, getId), table, k, cursor, limit);
  }

  lemma PageKeysCons<T>(pages: seq<Page<T>>, getId: T -> int)
    requires pages != []
    ensures PageKeys(pages, getId) == [KeysOf(pages[0].items, getId)] + PageKeys(pages[1..], getId)
    ensures |pages| == 1 ==> PageKeys(pages, getId) == [KeysOf(pages[0].items, getId)]
  {
  }

  /** On an unchanging list the client gets every row above its cursor, in order, in
      max(1, ceil(N / limit)) pages. */
  lemma ClientSeesAll<T>(pages: seq<Page<T>>, getId: T -> int, table: nat -> seq<int>, k: nat,
                         cursor: int, limit: nat, keys: seq<int>)
    requires limit > 0 && IsKeyList(keys) && (forall n: nat :: table(n) == keys)
    requires FollowsCursors(pages, getId, table, k, cursor, limit)
    ensures Flatten(PageKeys(pages, getId)) == Above(keys, cursor)
    ensures |Above(keys, cursor)| <= |pages| * limit
    ensures |pages| > 1 ==> (|pages| - 1) * limit < |Above(keys, cursor)|
  {
    ClientSeesFollow(pages, getId, table, k, cursor, limit);
    FollowUnchanging(table, k, cursor, limit, keys);
  }

  /** On a changing list no row comes twice, and one that is always there comes once. */
  lemma ClientSeesOnce<T>(pages: seq<Page<T>>, getId: T -> int, table: nat -> seq<int>, k: nat, cursor: int, limit: nat)
    requires limit > 0 && (forall n: nat :: IsKeyList(table(n)))
    requires FollowsCursors(pages, getId, table, k, cursor, limit)
    ensures Ascending(Flatten(PageKeys(pages, getId)))
    ensures forall id :: id > cursor && AlwaysListed(table, id) ==> multiset(Flatten(PageKeys(pages, getId)))[id] == 1
  {
    ClientSeesFollow(pages, getId, table, k, cursor, limit);
    FollowAscends(table, k, cursor, limit);
    forall id | id > cursor && AlwaysListed(table, id)
      ensures multiset(Flatten(PageKeys(pages, getId)))[id] == 1
    {
      FollowIsComplete(table, k, cursor, limit, id);
    }
  }

  /** Pages a client got from an endpoint, starting at request k: each answered for the cursor
      the page before carried, until none came back. */
  ghost predicate Browses<T(!new)>(pages: seq<Page<T>>, answer: (nat, int) --> Page<T>, k: nat, cursor: int)
    requires cursor >= 0 && forall n: nat, c: int :: c >= 0 ==> answer.requires(n, c)
  {
    && pages != []
    && pages[0] == answer(k, cursor)
    && (|pages| == 1 <==> pages[0].nextCursor == "")
    && (|pages| > 1 ==>
          && ParseCursor(pages[0].nextCursor).Success?
          && Browses(pages[1..], answer, k + 1, ParseCursor(pages[0].nextCursor).value))
  }

  /** The answers are the pages of lists of keys. */
  ghost predicate AnswersByKeys<T(!new)>(answer: (nat, int) --> Page<T>, getId: T -> int, table: nat -> seq<int>, limit: nat)
    requires limit > 0 && (forall n: nat :: IsKeyList(table(n)))
    requires forall n: nat, c: int :: c >= 0 ==> answer.requires(n, c)
  {
    forall n: nat, c: int :: c >= 0 ==> IsPageOf(answer(n, c), getId, table(n), c, limit)
  }

  lemma {:induction false} BrowsesFollows<T(!new)>(pages: seq<Page<T>>, answer: (nat, int) --> Page<T>, getId: T -> int,
                                             table: nat -> seq<int>, k: nat, cursor: int, limit: nat)
    requires limit > 0 && cursor >= 0 && (forall n: nat :: IsKeyList(table(n)))
    requires forall n: nat, c: int :: c >= 0 ==> answer.requires(n, c)
    requires AnswersByKeys(answer, getId, table, limit) && Browses(pages, answer, k, cursor)
    ensures FollowsCursors(pages, getId, table, k, cursor, limit)
  {
    if |pages| > 1 {
      BrowsesFollows(pages[1..], answer, getId, table, k + 1, ParseCursor(pages[0].nextCursor).value, limit);
    }
  }

  // ----- Incoming likes -----

  /** Profiles ListIncomingLikes selects for a user, before cursor and limit. */
  predicate LikesUser(db: Tables, user: int, p: Profile) {
    && p.userId in db.users
    && (p.userId, user) in db.swipes
    && p.isActive
    && !ExcludedEitherWay(db, user, p.userId)
  }

  function IncomingSet(db: Tables, user: int, after: int): set<int> {
    set id | id in db.profiles && id > after && LikesUser(db, user, db.profiles[id])
  }

  /** Everyone who likes the user, by profile id. */
  function IncomingKeys(db: Tables, user: int): seq<int> {
    SortedIds(IncomingSet(db, user, 0))
  }

  const CANDIDATE_ID := (c: Candidate) => c.profile.id

  function RowsFor(at: Snapshot, ids: seq<int>): (rows: seq<Candidate>)
    requires ProfilesKeyed(at.tables.profiles)
    requires forall id :: id in ids ==> id in at.tables.profiles && at.tables.profiles[id].userId in at.tables.users
    ensures KeysOf(rows, CANDIDATE_ID) == ids
  {
    CandidatesAt(at, ids)
  }

  lemma SortedMembers(ids: set<int>)
    requires forall id :: id in ids ==> 1 <= id <= MAX_INT64
    ensures IsKeyList(SortedIds(ids))
  {
    assert forall i :: 0 <= i < |SortedIds(ids)| ==> SortedIds(ids)[i] in SortedIds(ids);
  }

  /** A query after a cursor lists what the query from the start lists above the cursor. */
  lemma SortedAbove(all: set<int>, some: set<int>, cursor: int)
    requires IsKeyList(SortedIds(all)) && some == set id | id in all && id > cursor
    ensures SortedIds(some) == Above(SortedIds(all), cursor)
  {
    AboveMeaning(SortedIds(all), cursor);
    AscendingUnique(SortedIds(some), Above(SortedIds(all), cursor));
  }

  lemma IncomingAbove(at: Snapshot, user: int, after: int)
    requires ProfilesKeyed(at.tables.profiles) && after >= 0
    ensures IsKeyList(IncomingKeys(at.tables, user))
    ensures SortedIds(IncomingSet(at.tables, user, after)) == Above(IncomingKeys(at.tables, user), after)
  {
    var all, some := IncomingSet(at.tables, user, 0), IncomingSet(at.tables, user, after);
    SortedMembers(all);
    assert some == set id | id in all && id > after;
    SortedAbove(all, some, after);
  }

  /** The rows of the first limit incoming likes after a cursor. */
  function IncomingRows(at: Snapshot, user: int, after: int, limit: nat): (rows: seq<Candidate>)
    requires ProfilesKeyed(at.tables.profiles)
    ensures KeysOf(rows, CANDIDATE_ID) == Take(SortedIds(IncomingSet(at.tables, user, after)), limit)
  {
    IncomingExist(at, user, after, limit);
    RowsFor(at, Take(SortedIds(IncomingSet(at.tables, user, after)), limit))
  }

  lemma IncomingExist(at: Snapshot, user: int, after: int, limit: nat)
    ensures forall id :: id in Take(SortedIds(IncomingSet(at.tables, user, after)), limit) ==>
              id in at.tables.profiles && at.tables.profiles[id].userId in at.tables.users
  {
    var all := SortedIds(IncomingSet(at.tables, user, after));
    assert forall id :: id in Take(all, limit) ==> id in all;
  }

  /** ListIncomingLikes: the matching profiles by ascending id, cut at LIMIT. */
  method ListIncomingLikes(at: Snapshot, user: int, after: int, limit: nat) returns (rows: seq<Candidate>)
    requires ProfilesKeyed(at.tables.profiles)
    ensures rows == IncomingRows(at, user, after, limit)
  {
    IncomingExist(at, user, after, limit);
    rows := ScanCandidates(at, Take(SortedIds(IncomingSet(at.tables, user, after)), limit));
  }

  /** The page of incoming likes after a cursor. */
  function IncomingPage(at: Snapshot, user: int, after: int, limit: nat): Page<Candidate>
    requires ProfilesKeyed(at.tables.profiles) && after >= 0 && limit > 0
  {
    IncomingAbove(at, user, after);
    var rows := IncomingRows(at, user, after, limit + 1);
    FetchedRowsMakePage(rows, CANDIDATE_ID, IncomingKeys(at.tables, user), after, limit);
    PageOf(rows, limit, CANDIDATE_ID)
  }

  /** It is the page of the user's likers by profile id. */
  lemma IncomingPageKeys(at: Snapshot, user: int, after: int, limit: nat)
    requires ProfilesKeyed(at.tables.profiles) && after >= 0 && limit > 0
    ensures IsKeyList(IncomingKeys(at.tables, user))
    ensures IsPageOf(IncomingPage(at, user, after, limit), CANDIDATE_ID, IncomingKeys(at.tables, user), after, limit)
  {
    IncomingAbove(at, user, after);
    var rows := IncomingRows(at, user, after, limit + 1);
    FetchedRowsMakePage(rows, CANDIDATE_ID, IncomingKeys(at.tables, user), after, limit);
  }

  /** Every row is one of a liker, as the tables have it. */
  lemma IncomingPageRows(at: Snapshot, user: int, after: int, limit: nat, c: Candidate)
    requires ProfilesKeyed(at.tables.profiles) && after >= 0 && limit > 0
    requires c in IncomingPage(at, user, after, limit).items
    ensures c.profile.id in at.tables.profiles && LikesUser(at.tables, user, c.profile) && c == CandidateAt(at, c.profile.id)
  {
    var rows := IncomingRows(at, user, after, limit + 1);
    assert c in rows;
    var i :| 0 <= i < |rows| && rows[i] == c;
    RowIsIncoming(at, user, after, limit + 1, i);
  }

  lemma RowIsIncoming(at: Snapshot, user: int, after: int, limit: nat, i: nat)
    requires ProfilesKeyed(at.tables.profiles) && i < |IncomingRows(at, user, after, limit)|
    ensures var c := IncomingRows(at, user, after, limit)[i];
            c.profile.id in at.tables.profiles && LikesUser(at.tables, user, c.profile) && c == CandidateAt(at, c.profile.id)
  {
    var all := SortedIds(IncomingSet(at.tables, user, after));
    assert Take(all, limit)[i] in all;
  }

  /** GetIncomingLikes against the tables of one statement; distances are reported as zero. */
  method GetIncomingLikes(at: Snapshot, user: int, limit: int, cursor: string)
    returns (output: Result<Page<Candidate>, FeedError>)
    requires ProfilesKeyed(at.tables.profiles)
    ensures var size, after := NormalizeLimit(limit), ParseCursor(cursor);
            output == if size.Failure? then Failure(size.error)
                      else if after.Failure? then Failure(InvalidFeedCursor)
                      else Success(IncomingPage(at, user, after.value, size.value))
    ensures limit < 0 || limit > 50 ==> output == Failure(InvalidFeedLimit)
    ensures 0 <= limit <= 50 && ParseCursor(cursor).Failure? ==> output == Failure(InvalidFeedCursor)
    ensures 0 <= limit <= 50 && ParseCursor(cursor).Success? ==>
              output == Success(IncomingPage(at, user, ParseCursor(cursor).value, if limit == 0 then 20 else limit))
  {
    var size := NormalizeLimit(limit);
    if size.Failure? {
      return Failure(size.error);
    }
    var after := ParseCursor(cursor);
    if after.Failure? {
      return Failure(InvalidFeedCursor);
    }
    var rows := ListIncomingLikes(at, user, after.value, size.value + 1);
    IncomingAbove(at, user, after.value);
    FetchedRowsMakePage(rows, CANDIDATE_ID, IncomingKeys(at.tables, user), after.value, size.value);
    var page := MakePage(rows, size.value, CANDIDATE_ID);
    return Success(page);
  }

  /** A client paging through its incoming likes while the tables change sees no profile twice,
      and one that is a liker at every request once. */
  lemma IncomingLikesOnce(world: nat -> Snapshot, user: int, limit: nat, answer: (nat, int) --> Page<Candidate>,
                          pages: seq<Page<Candidate>>, id: int)
    requires limit > 0 && forall n: nat :: ProfilesKeyed(world(n).tables.profiles)
    requires forall n: nat, c: int :: c >= 0 ==> answer.requires(n, c) && answer(n, c) == IncomingPage(world(n), user, c, limit)
    requires Browses(pages, answer, 0, 0)
    ensures Ascending(Flatten(PageKeys(pages, CANDIDATE_ID)))
    ensures (forall n: nat :: id in IncomingSet(world(n).tables, user, 0)) ==>
              multiset(Flatten(PageKeys(pages, CANDIDATE_ID)))[id] == 1
  {
    var table := (n: nat) => IncomingKeys(world(n).tables, user);
    IncomingFollows(world, user, limit, answer, pages, table);
    ClientSeesOnce(pages, CANDIDATE_ID, table, 0, 0, limit);
    if forall n: nat :: id in IncomingSet(world(n).tables, user, 0) {
      AlwaysIncoming(world, user, table, id);
    }
  }

  lemma AlwaysIncoming(world: nat -> Snapshot, user: int, table: nat -> seq<int>, id: int)
    requires forall n: nat :: table(n) == IncomingKeys(world(n).tables, user)
    requires forall n: nat :: id in IncomingSet(world(n).tables, user, 0)
    ensures id > 0 && AlwaysListed(table, id)
  {
    assert id in IncomingSet(world(0).tables, user, 0);
    forall n: nat
      ensures id in table(n)
    {
      assert id in IncomingSet(world(n).tables, user, 0);
    }
  }

  lemma IncomingFollows(world: nat -> Snapshot, user: int, limit: nat, answer: (nat, int) --> Page<Candidate>,
                        pages: seq<Page<Candidate>>, table: nat -> seq<int>)
    requires limit > 0 && forall n: nat :: ProfilesKeyed(world(n).tables.profiles)
    requires forall n: nat, c: int :: c >= 0 ==> answer.requires(n, c) && answer(n, c) == IncomingPage(world(n), user, c, limit)
    requires forall n: nat :: table(n) == IncomingKeys(world(n).tables, user)
    requires Browses(pages, answer, 0, 0)
    ensures forall n: nat :: IsKeyList(table(n))
    ensures FollowsCursors(pages, CANDIDATE_ID, table, 0, 0, limit)
  {
    forall n: nat
      ensures IsKeyList(table(n))
    {
      IncomingAbove(world(n), user, 0);
    }
    forall n: nat, c: int | c >= 0
      ensures IsPageOf(answer(n, c), CANDIDATE_ID, table(n), c, limit)
    {
      IncomingPageKeys(world(n), user, c, limit);
    }
    BrowsesFollows(pages, answer, CANDIDATE_ID, table, 0, 0, limit);
  }

  /** On unchanging tables it gets all its likers, in order, in max(1, ceil(N / limit)) pages. */
  lemma IncomingLikesAll(at: Snapshot, user: int, limit: nat, answer: (nat, int) --> Page<Candidate>, pages: seq<Page<Candidate>>)
    requires limit > 0 && ProfilesKeyed(at.tables.profiles)
    requires forall n: nat, c: int :: c >= 0 ==> answer.requires(n, c) && answer(n, c) == IncomingPage(at, user, c, limit)
    requires Browses(pages, answer, 0, 0)
    ensures var all := IncomingKeys(at.tables, user);
            && Flatten(PageKeys(pages, CANDIDATE_ID)) == all
            && |all| <= |pages| * limit && (|pages| > 1 ==> (|pages| - 1) * limit < |all|)
  {
    var table := (n: nat) => IncomingKeys(at.tables, user);
    IncomingAbove(at, user, 0);
    IncomingFollows((n: nat) => at, user, limit, answer, pages, table);
    ClientSeesAll(pages, CANDIDATE_ID, table, 0, 0, limit, IncomingKeys(at.tables, user));
  }

  // ----- Clients that carry on with the cursor text they were given -----

  /** A page and what is left after it; the cursor text names where it stopped. */
  lemma PageThenRest<T>(page: Page<T>, getId: T -> int, keys: seq<int>, cursor: int, limit: nat)
    requires limit > 0 && IsKeyList(keys) && IsPageOf(page, getId, keys, cursor, limit)
    ensures page.nextCursor == "" ==> KeysOf(page.items, getId) == Above(keys, cursor)
    ensures page.nextCursor != "" ==>
              && ParseCursor(page.nextCursor).Success? && cursor < ParseCursor(page.nextCursor).value
              && KeysOf(page.items, getId) + Above(keys, ParseCursor(page.nextCursor).value) == Above(keys, cursor)
  {
    var above := Above(keys, cursor);
    KeyPageMeaning(keys, cursor, limit);
    if |above| > limit {
      AboveAgain(keys, cursor, limit);
      assert above == above[..limit] + above[limit..];
    } else {
      assert Take(above, limit) == above;
    }
  }

  lemma KeysOfConcat<T>(first: seq<T>, second: seq<T>, getId: T -> int)
    ensures KeysOf(first + second, getId) == KeysOf(first, getId) + KeysOf(second, getId)
  {
  }

  lemma StartOfList(keys: seq<int>)
    requires IsKeyList(keys)
    ensures ParseCursor("") == Success(0) && Above(keys, 0) == keys
  {
  }

  /** What a client has collected, and what the list still holds after its cursor. */
  ghost predicate Collected<T>(rows: seq<T>, getId: T -> int, keys: seq<int>, cursor: int) {
    KeysOf(rows, getId) + Above(keys, cursor) == keys
  }

  lemma CollectPage<T>(rows: seq<T>, page: Page<T>, getId: T -> int, keys: seq<int>, cursor: int, limit: nat)
    requires limit > 0 && IsKeyList(keys) && Collected(rows, getId, keys, cursor)
    requires IsPageOf(page, getId, keys, cursor, limit)
    ensures page.nextCursor == "" ==> KeysOf(rows + page.items, getId) == keys
    ensures page.nextCursor != "" ==>
              && ParseCursor(page.nextCursor).Success? && cursor < ParseCursor(page.nextCursor).value
              && Collected(rows + page.items, getId, keys, ParseCursor(page.nextCursor).value)
  {
    PageThenRest(page, getId, keys, cursor, limit);
    KeysOfConcat(rows, page.items, getId);
    JoinAgain(KeysOf(rows, getId), KeysOf(page.items, getId),
              if page.nextCursor == "" then [] else Above(keys, ParseCursor(page.nextCursor).value), Above(keys, cursor), keys);
  }

  lemma JoinAgain(a: seq<int>, b: seq<int>, c: seq<int>, rest: seq<int>, whole: seq<int>)
    requires a + rest == whole
    ensures b + c == rest ==> (a + b) + c == whole
    ensures b == rest ==> a + b == whole
  {
  }

  /** A client reading all its incoming likes, page after page, on tables that stay as they are. */
  method BrowseIncomingLikes(at: Snapshot, user: int, limit: int) returns (r: Result<seq<Candidate>, FeedError>)
    requires ProfilesKeyed(at.tables.profiles)
    ensures limit < 0 || limit > 50 ==> r == Failure(InvalidFeedLimit)
    ensures 0 <= limit <= 50 ==> r.Success? && KeysOf(r.value, CANDIDATE_ID) == IncomingKeys(at.tables, user)
  {
    ghost var keys, size := IncomingKeys(at.tables, user), if limit == 0 then 20 else limit;
    IncomingAbove(at, user, 0);
    StartOfList(keys);
    var rows, cursor, after := [], "", 0;
    while true
      invariant Collected(rows, CANDIDATE_ID, keys, after)
      invariant ParseCursor(cursor) == Success(after) && 0 <= after <= MAX_INT64
      invariant rows != [] ==> 0 <= limit <= 50
      decreases MAX_INT64 - after
    {
      var page := GetIncomingLikes(at, user, limit, cursor);
      if page.Failure? {
        return Failure(page.error);
      }
      IncomingPageKeys(at, user, after, size);
      CollectPage(rows, page.value, CANDIDATE_ID, keys, after, size);
      rows := rows + page.value.items;
      if page.value.nextCursor == "" {
        return Success(rows);
      }
      cursor := page.value.nextCursor;
      after := ParseCursor(cursor).value;
    }
  }
}
