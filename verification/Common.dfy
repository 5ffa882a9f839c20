/** Shared vocabulary: optional and failing results, ascending identifier lists. */
module Common {

  datatype Option<+T> = None | Some(value: T)

  datatype Result<+T, +E> = Success(value: T) | Failure(error: E)

  /** Largest value of Go's int64 and of Postgres BIGINT. */
  const MAX_INT64: int := 0x7FFF_FFFF_FFFF_FFFF

  function Min(a: int, b: int): int {
    if a < b then a else b
  }

  /** The first n elements, or all of them when there are fewer (SQL LIMIT). */
  function Take<T>(s: seq<T>, n: nat): seq<T> {
    if n <= |s| then s[..n] else s
  }

  function Flatten<T>(pages: seq<seq<T>>): seq<T> {
    if pages == [] then [] else pages[0] + Flatten(pages[1..])
  }

  ghost predicate Ascending(s: seq<int>) {
    forall i, j :: 0 <= i < j < |s| ==> s[i] < s[j]
  }

  predicate IsMinimum(m: int, ids: set<int>) {
    m in ids && forall x :: x in ids ==> m <= x
  }

  ghost function AnyOf<T>(s: set<T>): (x: T)
    requires s != {}
    ensures x in s
  {
    var x :| x in s;
    x
  }

  lemma {:induction false} MinimumExists(ids: set<int>)
    requires ids != {}
    ensures exists m :: IsMinimum(m, ids)
  {
    var m := AnyOf(ids);
    if ids == {m} {
      assert IsMinimum(m, ids);
    } else {
      var rest := ids - {m};
      assert ids == rest + {m};
      MinimumExists(rest);
      var k :| IsMinimum(k, rest);
      assert IsMinimum(Min(m, k), ids);
    }
  }

  /** A set of identifiers in ascending order (SQL ORDER BY id ASC). */
  function SortedIds(ids: set<int>): (s: seq<int>)
    ensures Ascending(s)
    ensures forall x :: x in s <==> x in ids
    ensures |s| == |ids|
  {
    if ids == {} then []
    else
      MinimumExists(ids);
      var m :| IsMinimum(m, ids);
      [m] + SortedIds(ids - {m})
  }

  /** An ascending list is determined by its elements. */
  lemma {:induction false} AscendingUnique(s: seq<int>, t: seq<int>)
    requires Ascending(s) && Ascending(t)
    requires forall x :: x in s <==> x in t
    ensures s == t
  {
    if s == [] {
      assert forall x :: x !in t;
      assert forall i :: 0 <= i < |t| ==> t[i] in t;
    } else {
      assert s[0] in s;
      assert t != [];
      assert t[0] in s;
      assert s[0] == t[0];
      forall x ensures x in s[1..] <==> x in t[1..] {
        if x in s[1..] {
          var i :| 1 <= i < |s| && s[i] == x;
          assert s[0] < x && x in t;
        }
        if x in t[1..] {
          var i :| 1 <= i < |t| && t[i] == x;
          assert t[0] < x && x in s;
        }
      }
      AscendingUnique(s[1..], t[1..]);
    }
  }

  lemma AscendingConcat(a: seq<int>, b: seq<int>)
    requires a != [] && Ascending(a) && Ascending(b)
    requires forall x :: x in b ==> x > a[|a| - 1]
    ensures Ascending(a + b)
    ensures forall x :: x in a + b ==> x >= a[0]
  {
    forall j | 0 <= j < |b| ensures b[j] > a[|a| - 1] {
      assert b[j] in b;
    }
  }

  ghost predicate AscendsAbove(keys: seq<int>, cursor: int) {
    Ascending(keys) && forall key :: key in keys ==> key > cursor
  }

  lemma AscendsConcat(first: seq<int>, rest: seq<int>, cursor: int)
    requires first != [] && AscendsAbove(first, cursor) && AscendsAbove(rest, first[|first| - 1])
    ensures AscendsAbove(first + rest, cursor)
  {
    AscendingConcat(first, rest);
    assert first[0] in first;
  }

  lemma {:induction false} AscendingSetSize(s: seq<int>)
    requires Ascending(s)
    ensures |set x | x in s| == |s|
  {
    if s != [] {
      var front, last := s[..|s| - 1], s[|s| - 1];
      AscendingSetSize(front);
      assert last !in front;
      assert (set x | x in s) == (set x | x in front) + {last};
    }
  }

  lemma SubsetSize<T>(a: set<T>, b: set<T>)
    requires a <= b
    ensures |a| <= |b|
  {
    assert b == a + (b - a);
  }

  lemma AscendingOnce(s: seq<int>, x: int)
    requires Ascending(s) && x in s
    ensures multiset(s)[x] == 1
  {
    var i :| 0 <= i < |s| && s[i] == x;
    assert s == s[..i] + [x] + s[i + 1..];
    assert x !in s[..i] && x !in s[i + 1..];
    assert multiset(s) == multiset(s[..i]) + multiset([x]) + multiset(s[i + 1..]);
  }

  // ----- Cutting a list into pages -----

  /** whole is cut into full pages of limit and a last page, which is the one where
      fewer than limit + spare elements are left. */
  ghost predicate IsCut(pages: seq<seq<int>>, whole: seq<int>, limit: nat, spare: nat) {
    && pages != []
    && pages[0] == Take(whole, limit)
    && (|pages| == 1 <==> |whole| < limit + spare)
    && (|pages| > 1 ==> IsCut(pages[1..], whole[limit..], limit, spare))
  }

  lemma {:induction false} CutCovers(pages: seq<seq<int>>, whole: seq<int>, limit: nat, spare: nat)
    requires IsCut(pages, whole, limit, spare) && spare <= 1
    ensures Flatten(pages) == whole
    ensures |whole| < |pages| * limit + spare
    ensures |pages| > 1 ==> (|pages| - 1) * limit + spare <= |whole|
  {
    if |pages| == 1 {
      assert Flatten(pages[1..]) == [];
    } else {
      CutCovers(pages[1..], whole[limit..], limit, spare);
      assert whole == whole[..limit] + whole[limit..];
      OneMorePage(|pages|, limit);
    }
  }

  lemma OneMorePage(pages: int, limit: int)
    ensures (pages - 1) * limit == pages * limit - limit
    ensures (pages - 2) * limit == (pages - 1) * limit - limit
  {
  }
}
