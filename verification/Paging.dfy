/**
 Listing request records by limit and offset. A page asks the database for one row more than the limit; the extra row
 only says that another page exists. The offset and the limit are 32-bit, and both are cast to uint64 for the query, so
 the model carries the wrap-around and the cast. A strict database (SQLite, PostgreSQL) refuses a count or an offset that
 is no signed 64-bit number; ClickHouse takes it. The rows the filters select are a fixed sequence.
 */
module Paging {

  const MAX_INT32 := 0x7FFF_FFFF
  const TWO_32 := 0x1_0000_0000
  const TWO_63 := 0x8000_0000_0000_0000
  const TWO_64 := 0x1_0000_0000_0000_0000
  const DEFAULT_LIMIT := 100

  /** Two's complement: the value an int32 operation leaves. */
  function Wrap32(x: int): (r: int)
    ensures Int32(r)
    decreases if x > MAX_INT32 then x - MAX_INT32 else if x < -MAX_INT32 - 1 then -MAX_INT32 - 1 - x else 0
  {
    if x > MAX_INT32 then Wrap32(x - TWO_32) else if x < -MAX_INT32 - 1 then Wrap32(x + TWO_32) else x
  }

  /** The uint64 cast of an int32. */
  function AsUint64(x: int): int {
    if x < 0 then x + TWO_64 else x
  }

  predicate Int32(x: int) {
    -MAX_INT32 - 1 <= x <= MAX_INT32
  }

  /** No database holds more rows than a signed 64-bit count. */
  predicate Countable(rows: seq<nat>) {
    |rows| <= TWO_63
  }

  function EffectiveLimit(limitVal: int): int {
    if limitVal <= 0 then DEFAULT_LIMIT else limitVal
  }

  function Min(a: int, b: int): int {
    if a < b then a else b
  }

  /** SQL's LIMIT and OFFSET. */
  function Window(rows: seq<nat>, count: nat, skip: nat): seq<nat> {
    if skip >= |rows| then [] else rows[skip..Min(|rows|, skip + count)]
  }

  /** A limit in effect: positive and 32-bit. */
  predicate IsLimit(limit: int) {
    0 < limit <= MAX_INT32
  }

  /** How many rows the page query asks for. */
  function Asked(limit: int): nat
    requires IsLimit(limit)
  {
    AsUint64(Wrap32(limit + 1))
  }

  /** One more than the limit if and only if that still fits in 32 bits; at the largest limit it is nearly 2^64. */
  lemma AsksForOneMoreIff(limit: int)
    requires IsLimit(limit)
    ensures Asked(limit) == limit + 1 <==> limit < MAX_INT32
    ensures limit == MAX_INT32 ==> Asked(limit) == TWO_64 - MAX_INT32 - 1
  {
  }

  function Fetched(rows: seq<nat>, limit: int, offset: int): (entries: seq<nat>)
    requires IsLimit(limit) && Int32(offset)
    ensures limit < MAX_INT32 ==> |entries| <= limit + 1 && entries == Window(rows, limit + 1, AsUint64(offset))
  {
    Window(rows, Asked(limit), AsUint64(offset))
  }

  /** The query names a number that a strict database does not take. */
  predicate Refuses(strict: bool, limit: int, offset: int)
    requires IsLimit(limit) && Int32(offset)
  {
    strict && (Asked(limit) >= TWO_63 || AsUint64(offset) >= TWO_63)
  }

  /** A strict database refuses the largest limit and wrapped offsets, and nothing else. */
  lemma RefusesIff(limit: int, offset: int)
    requires IsLimit(limit) && Int32(offset)
    ensures Refuses(true, limit, offset) <==> limit == MAX_INT32 || offset < 0
  {
    AsksForOneMoreIff(limit);
  }

  /** The query is refused, or cutting the rows to a negative length panics, or there is a page. */
  datatype Page = Refused | Panic | Page(results: seq<nat>, hasMore: bool)

  function PageAt(strict: bool, rows: seq<nat>, limit: int, offset: int): Page
    requires IsLimit(limit) && Int32(offset)
  {
    var entries := Fetched(rows, limit, offset);
    var n := Wrap32(|entries|);
    if Refuses(strict, limit, offset) then Refused else if n < 0 then Panic else Page(entries[..Min(limit, n)], n > limit)
  }

  /** The offset the request is left with, which is also what its cursor carries. */
  function OffsetAfter(rows: seq<nat>, limit: int, offset: int): (next: int)
    requires IsLimit(limit) && Int32(offset)
    ensures Int32(next)
  {
    Wrap32(Wrap32(offset + Wrap32(|Fetched(rows, limit, offset)|)) - 1)
  }

  // ---------------------------------------------------------------------------------------------
  // Following the pages
  // ---------------------------------------------------------------------------------------------

  function Remaining(rows: seq<nat>, offset: int): nat
    requires Int32(offset)
  {
    if AsUint64(offset) < |rows| then |rows| - AsUint64(offset) else 0
  }

  lemma WrapFits(x: int)
    requires Int32(x)
    ensures Wrap32(x) == x
  {
  }

  lemma WrapTwice(offset: int, n: int)
    requires Int32(offset) && 0 < n <= MAX_INT32
    ensures Wrap32(Wrap32(offset + n) - 1) == Wrap32(offset + n - 1)
  {
  }

  lemma WrapForward(offset: int, limit: int)
    requires 0 <= offset <= MAX_INT32 && 0 < limit < MAX_INT32
    ensures Wrap32(offset + limit) == if offset + limit <= MAX_INT32 then offset + limit else offset + limit - TWO_32
  {
  }

  /** A page has more behind it exactly when more than `limit` rows are left; then its rows are the next `limit`. */
  lemma PageRows(strict: bool, rows: seq<nat>, limit: int, offset: int)
    requires 0 < limit < MAX_INT32 && Int32(offset) && Countable(rows)
    ensures var page := PageAt(strict, rows, limit, offset);
      && (page.Refused? <==> strict && offset < 0)
      && !page.Panic?
      && (page.Page? ==>
        && (page.hasMore <==> Remaining(rows, offset) > limit)
        && (page.hasMore ==> 0 <= offset && page.results == rows[offset..offset + limit])
        && (!page.hasMore && 0 <= offset <= |rows| ==> page.results == rows[offset..])
        && (offset < 0 ==> page.results == []))
  {
    RefusesIff(limit, offset);
    WrapFits(|Fetched(rows, limit, offset)|);
  }

  /**
   At the largest limit a strict database refuses the query; elsewhere there is one page: all that is left, or a panic or
   a cut when that is 2^31 rows or more.
   */
  lemma LargestLimitPage(strict: bool, rows: seq<nat>, offset: int)
    requires Int32(offset) && Countable(rows)
    ensures var page, left := PageAt(strict, rows, MAX_INT32, offset), Remaining(rows, offset);
      && (page.Refused? <==> strict)
      && (page.Page? ==> !page.hasMore)
      && (!strict && offset < 0 ==> page == Page([], false))
      && (!strict && 0 <= offset <= |rows| && left <= MAX_INT32 ==> page == Page(rows[offset..], false))
      && (left > MAX_INT32 && page.Page? ==> |page.results| < left)
  {
    RefusesIff(MAX_INT32, offset);
    AsksForOneMoreIff(MAX_INT32);
    var entries := Fetched(rows, MAX_INT32, offset);
    assert |entries| == Remaining(rows, offset);
    if |entries| <= MAX_INT32 {
      WrapFits(|entries|);
    }
  }

  lemma LargestLimitPanics(rows: seq<nat>)
    requires |rows| == MAX_INT32 + 1
    ensures PageAt(false, rows, MAX_INT32, 0) == Panic
  {
    AsksForOneMoreIff(MAX_INT32);
    assert Wrap32(MAX_INT32 + 1) == -MAX_INT32 - 1;
  }

  lemma MoreNeedsSmallLimit(strict: bool, rows: seq<nat>, limit: int, offset: int)
    requires IsLimit(limit) && Int32(offset)
    requires PageAt(strict, rows, limit, offset).Page? && PageAt(strict, rows, limit, offset).hasMore
    ensures limit < MAX_INT32
  {
  }

  /** The offset then moves by the limit, or wraps below zero. */
  lemma PageStep(strict: bool, rows: seq<nat>, limit: int, offset: int)
    requires IsLimit(limit) && Int32(offset) && Countable(rows)
    requires PageAt(strict, rows, limit, offset).Page? && PageAt(strict, rows, limit, offset).hasMore
    ensures limit < MAX_INT32 && 0 <= offset && offset + limit < |rows|
    ensures OffsetAfter(rows, limit, offset) ==
            if offset + limit <= MAX_INT32 then offset + limit else offset + limit - TWO_32
    ensures Remaining(rows, OffsetAfter(rows, limit, offset)) < Remaining(rows, offset)
  {
    MoreNeedsSmallLimit(strict, rows, limit, offset);
    PageRows(strict, rows, limit, offset);
    WrapFits(limit + 1);
    WrapTwice(offset, limit + 1);
    WrapForward(offset, limit);
  }

  /** The pages a client sees that follows the cursors until there is no more, an error or a panic. */
  function Pages(strict: bool, rows: seq<nat>, limit: int, offset: int): seq<seq<nat>>
    requires IsLimit(limit) && Int32(offset) && Countable(rows)
    decreases Remaining(rows, offset)
  {
    match PageAt(strict, rows, limit, offset)
    case Refused => []
    case Panic => []
    case Page(results, hasMore) =>
      if hasMore then
        PageStep(strict, rows, limit, offset);
        [results] + Pages(strict, rows, limit, OffsetAfter(rows, limit, offset))
      else [results]
  }

  /** What the listing ends with. */
  function LastPage(strict: bool, rows: seq<nat>, limit: int, offset: int): Page
    requires IsLimit(limit) && Int32(offset) && Countable(rows)
    decreases Remaining(rows, offset)
  {
    var page := PageAt(strict, rows, limit, offset);
    if page.Page? && page.hasMore then
      PageStep(strict, rows, limit, offset);
      LastPage(strict, rows, limit, OffsetAfter(rows, limit, offset))
    else page
  }

  lemma PagesUnfold(strict: bool, rows: seq<nat>, limit: int, offset: int)
    requires IsLimit(limit) && Int32(offset) && Countable(rows)
    ensures var page, next := PageAt(strict, rows, limit, offset), OffsetAfter(rows, limit, offset);
      && (!page.Page? ==> Pages(strict, rows, limit, offset) == [])
      && (page.Page? ==>
            Pages(strict, rows, limit, offset) ==
            [page.results] + (if page.hasMore then Pages(strict, rows, limit, next) else []))
      && LastPage(strict, rows, limit, offset) ==
           (if page.Page? && page.hasMore then LastPage(strict, rows, limit, next) else page)
      && (page.Page? && page.hasMore ==> Remaining(rows, next) < Remaining(rows, offset))
  {
    if PageAt(strict, rows, limit, offset).Page? && PageAt(strict, rows, limit, offset).hasMore {
      PageStep(strict, rows, limit, offset);
    }
  }

  function Concat(pages: seq<seq<nat>>): seq<nat> {
    if pages == [] then [] else pages[0] + Concat(pages[1..])
  }

  /** The offset of the last page of a listing from `offset`: the last multiple of the limit that has a row behind it. */
  function LastOffset(rows: seq<nat>, limit: int, offset: int): (last: int)
    requires 0 < limit && 0 <= offset
    ensures offset <= last && |rows| <= last + limit && (offset < |rows| ==> last < |rows|)
    decreases |rows| - offset
  {
    if offset + limit < |rows| then LastOffset(rows, limit, offset + limit) else offset
  }

  /** Once the offset has wrapped it is past every row: an empty page ends the listing, or the database an error. */
  lemma WrappedOffsetEnds(strict: bool, rows: seq<nat>, limit: int, offset: int)
    requires 0 < limit < MAX_INT32 && Int32(offset) && Countable(rows) && offset < 0
    ensures Pages(strict, rows, limit, offset) == if strict then [] else [[]]
    ensures LastPage(strict, rows, limit, offset) == if strict then Refused else Page([], false)
  {
    PageRows(strict, rows, limit, offset);
    PagesUnfold(strict, rows, limit, offset);
  }

  /** The listing from `offset` comes to its end, with exactly the rows from there. */
  ghost predicate Covers(strict: bool, rows: seq<nat>, limit: int, offset: int)
    requires IsLimit(limit) && 0 <= offset <= MAX_INT32 && offset <= |rows| && Countable(rows)
  {
    LastPage(strict, rows, limit, offset).Page? && Concat(Pages(strict, rows, limit, offset)) == rows[offset..]
  }

  /**
   No page of a listing from `offset` starts beyond 32 bits. The largest limit is refused by a strict database, and
   elsewhere needs less than 2^31 rows to list.
   */
  predicate Reachable(strict: bool, rows: seq<nat>, limit: int, offset: int)
    requires IsLimit(limit) && 0 <= offset <= |rows|
  {
    if limit < MAX_INT32 then LastOffset(rows, limit, offset) <= MAX_INT32 else !strict && |rows| - offset <= MAX_INT32
  }

  /**
   The pages concatenate to exactly the rows from the start offset, each once and in order, if and only if all of them
   can be reached.
   */
  lemma PagesCoverIff(strict: bool, rows: seq<nat>, limit: int, offset: int)
    requires IsLimit(limit) && 0 <= offset <= MAX_INT32 && offset <= |rows| && Countable(rows)
    ensures Covers(strict, rows, limit, offset) <==> Reachable(strict, rows, limit, offset)
  {
    if limit < MAX_INT32 {
      SmallLimitCoverIff(strict, rows, limit, offset);
    } else {
      LargestLimitCoverIff(strict, rows, offset);
    }
  }

  lemma LargestLimitCoverIff(strict: bool, rows: seq<nat>, offset: int)
    requires 0 <= offset <= MAX_INT32 && offset <= |rows| && Countable(rows)
    ensures Covers(strict, rows, MAX_INT32, offset) <==> !strict && |rows| - offset <= MAX_INT32
  {
    LargestLimitPage(strict, rows, offset);
    PagesUnfold(strict, rows, MAX_INT32, offset);
    var page := PageAt(strict, rows, MAX_INT32, offset);
    if page.Page? {
      ConcatOne(page.results);
    }
  }

  /** Where the offset goes after a full page. */
  function Moved(limit: int, offset: int): int {
    if offset + limit <= MAX_INT32 then offset + limit else offset + limit - TWO_32
  }

  lemma ConcatRest(rows: seq<nat>, from: nat, to: nat, rest: seq<seq<nat>>)
    requires from <= to <= |rows|
    ensures Concat([rows[from..to]] + rest) == rows[from..] <==> Concat(rest) == rows[to..]
  {
    ConcatCons(rows[from..to], rest);
    assert rows[from..] == rows[from..to] + rows[to..];
    ConcatCancel(rows[from..to], Concat(rest), rows[to..]);
  }

  /** A page with more behind it is right, so the listing is when the rest of it is. */
  lemma CoverMore(strict: bool, rows: seq<nat>, limit: int, offset: int)
    requires 0 < limit < MAX_INT32 && 0 <= offset <= MAX_INT32 && Countable(rows) && offset + limit < |rows|
    ensures Int32(Moved(limit, offset))
    ensures LastPage(strict, rows, limit, offset) == LastPage(strict, rows, limit, Moved(limit, offset))
    ensures Concat(Pages(strict, rows, limit, offset)) == rows[offset..] <==>
            Concat(Pages(strict, rows, limit, Moved(limit, offset))) == rows[offset + limit..]
  {
    PageRows(strict, rows, limit, offset);
    PagesUnfold(strict, rows, limit, offset);
    PageStep(strict, rows, limit, offset);
    ConcatRest(rows, offset, offset + limit, Pages(strict, rows, limit, OffsetAfter(rows, limit, offset)));
  }

  lemma LastPageCovers(strict: bool, rows: seq<nat>, limit: int, offset: int)
    requires 0 < limit < MAX_INT32 && 0 <= offset <= MAX_INT32 && offset <= |rows| <= offset + limit && Countable(rows)
    ensures Covers(strict, rows, limit, offset)
  {
    PageRows(strict, rows, limit, offset);
    PagesUnfold(strict, rows, limit, offset);
    ConcatOne(PageAt(strict, rows, limit, offset).results);
  }

  lemma CoverMoves(strict: bool, rows: seq<nat>, limit: int, offset: int)
    requires 0 < limit < MAX_INT32 && 0 <= offset && offset + limit <= MAX_INT32 && Countable(rows) && offset + limit < |rows|
    ensures Covers(strict, rows, limit, offset) <==> Covers(strict, rows, limit, offset + limit)
    ensures LastPage(strict, rows, limit, offset) == LastPage(strict, rows, limit, offset + limit)
  {
    CoverMore(strict, rows, limit, offset);
  }

  lemma WrapStopsShort(strict: bool, rows: seq<nat>, limit: int, offset: int)
    requires 0 < limit < MAX_INT32 && 0 <= offset <= MAX_INT32 < offset + limit < |rows| && Countable(rows)
    ensures !Covers(strict, rows, limit, offset)
    ensures LastPage(strict, rows, limit, offset) == if strict then Refused else Page([], false)
  {
    CoverMore(strict, rows, limit, offset);
    WrappedOffsetEnds(strict, rows, limit, Moved(limit, offset));
    ConcatOne([]);
    assert |rows[offset + limit..]| > 0;
  }

  lemma {:induction false} SmallLimitCoverIff(strict: bool, rows: seq<nat>, limit: int, offset: int)
    requires 0 < limit < MAX_INT32 && 0 <= offset <= MAX_INT32 && offset <= |rows| && Countable(rows)
    ensures Covers(strict, rows, limit, offset) <==> LastOffset(rows, limit, offset) <= MAX_INT32
    ensures !Covers(strict, rows, limit, offset) ==>
      LastPage(strict, rows, limit, offset) == if strict then Refused else Page([], false)
    decreases |rows| - offset
  {
    if |rows| <= offset + limit {
      LastPageCovers(strict, rows, limit, offset);
    } else if offset + limit > MAX_INT32 {
      WrapStopsShort(strict, rows, limit, offset);
    } else {
      CoverMoves(strict, rows, limit, offset);
      SmallLimitCoverIff(strict, rows, limit, offset + limit);
    }
  }

  /** Over a strict database a listing that comes to its end is whole: the others end with an error. */
  lemma StrictListingIsWhole(rows: seq<nat>, limit: int, offset: int)
    requires IsLimit(limit) && 0 <= offset <= MAX_INT32 && offset <= |rows| && Countable(rows)
    ensures LastPage(true, rows, limit, offset).Refused? <==> !Reachable(true, rows, limit, offset)
    ensures LastPage(true, rows, limit, offset).Page? <==> Covers(true, rows, limit, offset)
  {
    PagesCoverIff(true, rows, limit, offset);
    if limit < MAX_INT32 {
      SmallLimitCoverIff(true, rows, limit, offset);
    } else {
      LargestLimitPage(true, rows, offset);
      PagesUnfold(true, rows, limit, offset);
    }
  }

  lemma ConcatOne(page: seq<nat>)
    ensures Concat([page]) == page
  {
    assert [page][1..] == [];
  }

  lemma ConcatCons(page: seq<nat>, pages: seq<seq<nat>>)
    ensures Concat([page] + pages) == page + Concat(pages)
  {
    assert ([page] + pages)[1..] == pages;
  }

  lemma ConcatCancel(prefix: seq<nat>, a: seq<nat>, b: seq<nat>)
    ensures prefix + a == prefix + b <==> a == b
  {
    assert a == (prefix + a)[|prefix|..] && b == (prefix + b)[|prefix|..];
  }

  /** From the start, fewer than 2^31 rows are listed whole, whatever the limit that is not refused. */
  lemma SmallListingIsWhole(strict: bool, rows: seq<nat>, limit: int)
    requires IsLimit(limit) && |rows| <= MAX_INT32
    ensures Covers(strict, rows, limit, 0) <==> !strict || limit < MAX_INT32
  {
    PagesCoverIff(strict, rows, limit, 0);
  }

  /** One row past 2^31, in pages of 2^30: the third page's offset wraps and the last row is not listed. */
  lemma WrapLosesARow(strict: bool, rows: seq<nat>)
    requires |rows| == MAX_INT32 + 2
    ensures !Covers(strict, rows, 0x4000_0000, 0)
    ensures LastPage(strict, rows, 0x4000_0000, 0) == if strict then Refused else Page([], false)
  {
    SmallLimitCoverIff(strict, rows, 0x4000_0000, 0);
    assert LastOffset(rows, 0x4000_0000, 0x4000_0000) == 0x8000_0000;
  }

  /** Every page but the last is full, and the last is no fuller. */
  lemma {:induction false} PagesAreFull(strict: bool, rows: seq<nat>, limit: int, offset: int, i: nat)
    requires IsLimit(limit) && Int32(offset) && Countable(rows) && i < |Pages(strict, rows, limit, offset)|
    ensures |Pages(strict, rows, limit, offset)[i]| <= limit
    ensures i + 1 < |Pages(strict, rows, limit, offset)| ==> |Pages(strict, rows, limit, offset)[i]| == limit
    decreases Remaining(rows, offset)
  {
    PagesUnfold(strict, rows, limit, offset);
    if PageAt(strict, rows, limit, offset).hasMore {
      PageStep(strict, rows, limit, offset);
      PageRows(strict, rows, limit, offset);
    }
    if i > 0 {
      PagesAreFull(strict, rows, limit, OffsetAfter(rows, limit, offset), i - 1);
    }
  }

  // ---------------------------------------------------------------------------------------------
  // The request object
  // ---------------------------------------------------------------------------------------------

  datatype Cursor = NoCursor | Cursor(limitVal: int, offset: int)
  datatype PageResult = Failed | Panicked | Fine(results: seq<nat>, hasMore: bool, cursor: Cursor)

  /** What the world answers on one round: the query, the cursor's encryption, then the callback. */
  datatype Round = Round(queryFails: bool, cursorFails: bool, keepGoing: bool, callbackFails: bool)

  /** Fetching the page succeeds. */
  predicate Cooperates(r: Round) {
    !r.queryFails && !r.cursorFails
  }

  /** The callback asked to stop after page `n`. */
  predicate Stopped(world: seq<Round>, n: nat) {
    0 < n <= |world| && !world[n - 1].keepGoing
  }

  /** The fetch of page `n` failed, or the callback failed on the page before. */
  predicate Failing(world: seq<Round>, n: nat) {
    (n < |world| && !Cooperates(world[n])) || (0 < n <= |world| && world[n - 1].callbackFails)
  }

  datatype Ending = Finished | Broken | Panicking

  class ListRequests {
    const rows: seq<nat>
    const strict: bool
    var limitVal: int
    var offset: int

    ghost predicate Valid()
      reads this
    {
      Countable(rows) && Int32(limitVal) && Int32(offset)
    }

    function Limit(): int
      reads this
    {
      EffectiveLimit(limitVal)
    }

    constructor (strict: bool, rows: seq<nat>)
      requires Countable(rows)
      ensures Valid() && this.strict == strict && this.rows == rows && limitVal == DEFAULT_LIMIT && offset == 0
    {
      this.strict, this.rows := strict, rows;
      limitVal, offset := DEFAULT_LIMIT, 0;
    }

    /** A cursor holds the request's limit and offset; resuming keeps nothing else of the old request. */
    method FromCursor(c: Cursor)
      requires Valid() && c.Cursor? && Int32(c.limitVal) && Int32(c.offset)
      modifies this
      ensures Valid() && limitVal == c.limitVal && offset == c.offset
    {
      limitVal, offset := c.limitVal, c.offset;
    }

    /** Reads the rows the query selects, one at a time. */
    method Scan() returns (entries: seq<nat>)
      requires Valid()
      ensures entries == Fetched(rows, Limit(), offset)
    {
      var count, skip := AsUint64(Wrap32(Limit() + 1)), AsUint64(offset);
      entries := [];
      while |entries| < count && skip + |entries| < |rows|
        invariant |entries| <= count && (skip + |entries| <= |rows| || entries == [])
        invariant skip <= |rows| ==> entries == rows[skip..skip + |entries|]
        decreases count - |entries|
      {
        entries := entries + [rows[skip + |entries|]];
      }
    }

    method FetchPage(round: Round) returns (result: PageResult)
      requires Valid()
      modifies this`offset
      ensures Valid()
      ensures round.queryFails || Refuses(strict, Limit(), old(offset)) ==> result == Failed && offset == old(offset)
      ensures !round.queryFails && !Refuses(strict, Limit(), old(offset)) ==>
        var page := PageAt(strict, rows, Limit(), old(offset));
        && offset == OffsetAfter(rows, Limit(), old(offset))
        && (result.Panicked? <==> page.Panic?)
        && (result.Failed? <==> page.Page? && page.hasMore && round.cursorFails)
        && (result.Fine? ==> result == Fine(page.results, page.hasMore,
                                            if page.hasMore then Cursor(limitVal, offset) else NoCursor))
    {
      if round.queryFails || Refuses(strict, Limit(), offset) {
        return Failed;
      }
      var entries := Scan();
      var limit, n := Limit(), Wrap32(|entries|);
      offset := Wrap32(Wrap32(offset + n) - 1);
      var cursor := NoCursor;
      var hasMore := n > limit;
      if hasMore {
        if round.cursorFails {
          return Failed;
        }
        cursor := Cursor(limitVal, offset);
      }
      var cut := Min(limit, n);
      if cut < 0 {
        return Panicked;
      }
      result := Fine(entries[..cut], hasMore, cursor);
    }

    /** What is still to be listed. */
    ghost function Rest(hasMore: bool): seq<seq<nat>>
      requires Valid()
      reads this
    {
      if hasMore then Pages(strict, rows, Limit(), offset) else []
    }

    ghost function Last(): Page
      requires Valid()
      reads this
    {
      LastPage(strict, rows, Limit(), offset)
    }

    /** FetchPage as the listing sees it: the result is the next page, and what is left follows from the new offset. */
    method FetchNext(round: Round) returns (result: PageResult)
      requires Valid()
      modifies this`offset
      ensures Valid()
      ensures Cooperates(round) && result.Failed? ==> old(Rest(true)) == [] && old(Last()).Refused?
      ensures result.Panicked? ==> old(Rest(true)) == [] && old(Last()).Panic?
      ensures result.Fine? ==> (if result.hasMore then Last() else Page(result.results, false)) == old(Last())
      ensures result.Fine? ==> old(Rest(true)) == [result.results] + Rest(result.hasMore)
    {
      PagesUnfold(strict, rows, Limit(), offset);
      result := FetchPage(round);
    }

    /**
     Hands the pages to the callback in order. `pages` are those it saw: always a prefix of the listing, cut short only
     by the callback or a failure, and the whole listing otherwise; a listing that ends in an error or a panic is never
     reported as finished. `world` has a round per page.
     */
    method Enumerate(world: seq<Round>) returns (end: Ending, pages: seq<seq<nat>>)
      requires Valid() && |Rest(true)| < |world|
      modifies this`offset
      ensures Valid() && pages <= old(Rest(true))
      ensures end == Finished ==> (pages == old(Rest(true)) && old(Last()).Page?) || Stopped(world, |pages|)
      ensures end == Broken ==> Failing(world, |pages|) || (pages == old(Rest(true)) && old(Last()).Refused?)
      ensures end == Panicking ==> pages == old(Rest(true)) && old(Last()).Panic?
    {
      ghost var all, last := Rest(true), Last();
      pages := [];
      var hasMore, keepGoing, err := true, true, false;
      while !err && hasMore && keepGoing
        invariant Valid() && Splits(all, pages, Rest(hasMore))
        invariant if hasMore then last == Last() else last.Page?
        invariant !keepGoing ==> Stopped(world, |pages|)
        invariant err ==> Failing(world, |pages|)
        decreases |Rest(hasMore)|
      {
        SplitsPrefix(all, pages, Rest(hasMore));
        var round := world[|pages|];
        var result := FetchNext(round);
        if result.Failed? {
          return Broken, pages;
        }
        if result.Panicked? {
          return Panicking, pages;
        }
        hasMore := result.hasMore;
        keepGoing, err := round.keepGoing, round.callbackFails;
        SplitsNext(all, pages, result.results, Rest(hasMore));
        pages := pages + [result.results];
      }
      SplitsPrefix(all, pages, Rest(hasMore));
      end := if err then Broken else Finished;
    }
  }

  ghost predicate Splits(all: seq<seq<nat>>, pages: seq<seq<nat>>, rest: seq<seq<nat>>) {
    all == pages + rest
  }

  lemma SplitsPrefix(all: seq<seq<nat>>, pages: seq<seq<nat>>, rest: seq<seq<nat>>)
    requires Splits(all, pages, rest)
    ensures pages <= all && (rest == [] ==> pages == all)
  {
  }

  lemma SplitsNext(all: seq<seq<nat>>, pages: seq<seq<nat>>, page: seq<nat>, rest: seq<seq<nat>>)
    requires Splits(all, pages, [page] + rest)
    ensures Splits(all, pages + [page], rest)
  {
  }

  /** Every page but the last has as many rows as asked for, and the last no more. */
  ghost predicate FullPages(pages: seq<seq<nat>>, limit: int) {
    forall i :: 0 <= i < |pages| ==> |pages[i]| <= limit && (i + 1 < |pages| ==> |pages[i]| == limit)
  }

  lemma AllPagesFull(strict: bool, rows: seq<nat>, limit: int)
    requires IsLimit(limit) && Countable(rows)
    ensures FullPages(Pages(strict, rows, limit, 0), limit)
  {
    forall i | 0 <= i < |Pages(strict, rows, limit, 0)|
      ensures var pages := Pages(strict, rows, limit, 0);
        |pages[i]| <= limit && (i + 1 < |pages| ==> |pages[i]| == limit)
    {
      PagesAreFull(strict, rows, limit, 0, i);
    }
  }

  /** A client that sends each cursor to a new request sees the pages that one enumeration lists, and its error. */
  method FollowCursors(strict: bool, rows: seq<nat>, limitVal: int) returns (pages: seq<seq<nat>>, ok: bool)
    requires Countable(rows) && Int32(limitVal)
    ensures pages == Pages(strict, rows, EffectiveLimit(limitVal), 0)
    ensures ok <==> LastPage(strict, rows, EffectiveLimit(limitVal), 0).Page?
    ensures FullPages(pages, if limitVal > 0 then limitVal else 100)
  {
    AllPagesFull(strict, rows, EffectiveLimit(limitVal));
    var cursor := Cursor(limitVal, 0);
    ghost var all := Pages(strict, rows, EffectiveLimit(limitVal), 0);
    ghost var last := LastPage(strict, rows, EffectiveLimit(limitVal), 0);
    pages, ok := [], true;
    while cursor.Cursor?
      invariant cursor.Cursor? ==> cursor.limitVal == limitVal && Int32(cursor.offset)
      invariant Splits(all, pages, if cursor.Cursor? then Pages(strict, rows, EffectiveLimit(limitVal), cursor.offset) else [])
      invariant if cursor.Cursor? then last == LastPage(strict, rows, EffectiveLimit(limitVal), cursor.offset) else last.Page?
      decreases cursor.Cursor?, if cursor.Cursor? then Remaining(rows, cursor.offset) else 0
    {
      var request := new ListRequests(strict, rows);
      request.FromCursor(cursor);
      PagesUnfold(strict, rows, EffectiveLimit(limitVal), cursor.offset);
      var result := request.FetchPage(Round(false, false, true, false));
      if !result.Fine? {
        SplitsPrefix(all, pages, []);
        return pages, false;
      }
      ghost var rest := if result.hasMore then Pages(strict, rows, EffectiveLimit(limitVal), request.offset) else [];
      SplitsNext(all, pages, result.results, rest);
      pages := pages + [result.results];
      cursor := result.cursor;
    }
  }
}
