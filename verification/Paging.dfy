/** The warranty report: one page at a time out of several host lists put end to end. */
module Paging {
  import opened Options
  import FreshNames
  import opened Numbers

  // ---------------------------------------------------------------- the rows of a page

  function Map<H, R>(build: H -> R, hosts: seq<H>): (rows: seq<R>)
    ensures |rows| == |hosts| && forall k :: 0 <= k < |hosts| ==> rows[k] == build(hosts[k])
  {
    seq(|hosts|, k requires 0 <= k < |hosts| => build(hosts[k]))
  }

  /** Every row of the report: the lists in turn, each with its own row builder. */
  function AllRows<H, R>(lists: seq<seq<H>>, builders: seq<H -> R>): seq<R>
    requires |lists| == |builders|
  {
    if lists == [] then [] else Map(builders[0], lists[0]) + AllRows(lists[1..], builders[1..])
  }

  /** At most `size` elements from `offset` on. */
  function Slice<R>(s: seq<R>, offset: nat, size: nat): seq<R> {
    if offset >= |s| then [] else s[offset..Min(offset + size, |s|)]
  }

  lemma SliceOfTail<R>(a: seq<R>, b: seq<R>, offset: nat, size: nat)
    requires offset >= |a|
    ensures Slice(a + b, offset, size) == Slice(b, offset - |a|, size)
  {
  }

  lemma SliceAcross<R>(a: seq<R>, b: seq<R>, offset: nat, size: nat)
    requires offset < |a|
    ensures var limit := Min(size, |a| - offset);
      Slice(a + b, offset, size) == a[offset..offset + limit] + Slice(b, 0, size - limit)
  {
  }

  /** The rows from the i-th list on. */
  function RowsFrom<H, R>(lists: seq<seq<H>>, builders: seq<H -> R>, i: nat): seq<R>
    requires |lists| == |builders| && i <= |lists|
  {
    AllRows(lists[i..], builders[i..])
  }

  lemma RowsFromUnfolds<H, R>(lists: seq<seq<H>>, builders: seq<H -> R>, i: nat)
    requires |lists| == |builders| && i < |lists|
    ensures RowsFrom(lists, builders, i) == Map(builders[i], lists[i]) + RowsFrom(lists, builders, i + 1)
  {
    assert lists[i..][1..] == lists[i + 1..] && builders[i..][1..] == builders[i + 1..];
  }

  /** `rows` are collected, and what is wanted besides is the slice of the lists from the i-th on. */
  ghost predicate Wanting<H, R>(
    wanted: seq<R>, rows: seq<R>, lists: seq<seq<H>>, builders: seq<H -> R>, i: nat, offset: nat, remaining: nat)
  {
    && |lists| == |builders| && i <= |lists|
    && wanted == rows + Slice(RowsFrom(lists, builders, i), offset, remaining)
  }

  lemma SkipsList<H, R>(
    wanted: seq<R>, rows: seq<R>, lists: seq<seq<H>>, builders: seq<H -> R>, i: nat, offset: nat, remaining: nat)
    requires Wanting(wanted, rows, lists, builders, i, offset, remaining)
    requires i < |lists| && offset >= |lists[i]|
    ensures Wanting(wanted, rows, lists, builders, i + 1, offset - |lists[i]|, remaining)
  {
    RowsFromUnfolds(lists, builders, i);
    SliceOfTail(Map(builders[i], lists[i]), RowsFrom(lists, builders, i + 1), offset, remaining);
  }

  lemma MapSlice<H, R>(build: H -> R, hosts: seq<H>, from: nat, to: nat)
    requires from <= to <= |hosts|
    ensures Map(build, hosts[from..to]) == Map(build, hosts)[from..to]
  {
  }

  lemma TakesFromList<H, R>(
    wanted: seq<R>, rows: seq<R>, lists: seq<seq<H>>, builders: seq<H -> R>, i: nat, offset: nat, remaining: nat,
    limit: nat)
    requires Wanting(wanted, rows, lists, builders, i, offset, remaining)
    requires i < |lists| && offset < |lists[i]| && limit == Min(remaining, |lists[i]| - offset)
    ensures var taken := Map(builders[i], lists[i][offset..offset + limit]);
      Wanting(wanted, rows + taken, lists, builders, i + 1, 0, remaining - limit)
  {
    var taken := Map(builders[i], lists[i][offset..offset + limit]);
    var more := Slice(RowsFrom(lists, builders, i + 1), 0, remaining - limit);
    SliceOfList(lists, builders, i, offset, remaining, limit);
    assert rows + (taken + more) == rows + taken + more;
  }

  lemma SliceOfList<H, R>(
    lists: seq<seq<H>>, builders: seq<H -> R>, i: nat, offset: nat, remaining: nat, limit: nat)
    requires |lists| == |builders| && i < |lists|
    requires offset < |lists[i]| && limit == Min(remaining, |lists[i]| - offset)
    ensures Slice(RowsFrom(lists, builders, i), offset, remaining)
         == Map(builders[i], lists[i][offset..offset + limit])
            + Slice(RowsFrom(lists, builders, i + 1), 0, remaining - limit)
  {
    var mine, later := Map(builders[i], lists[i]), RowsFrom(lists, builders, i + 1);
    RowsFromUnfolds(lists, builders, i);
    SliceAcross(mine, later, offset, remaining);
    MapSlice(builders[i], lists[i], offset, offset + limit);
  }

  lemma StartsWanting<H, R>(lists: seq<seq<H>>, builders: seq<H -> R>, start: nat, size: nat)
    requires |lists| == |builders|
    ensures Wanting(Slice(AllRows(lists, builders), start, size), [], lists, builders, 0, start, size)
  {
    assert lists[0..] == lists && builders[0..] == builders;
  }

  lemma WantsNoMore<H, R>(
    wanted: seq<R>, rows: seq<R>, lists: seq<seq<H>>, builders: seq<H -> R>, i: nat, offset: nat, remaining: nat)
    requires Wanting(wanted, rows, lists, builders, i, offset, remaining) && (i == |lists| || remaining == 0)
    ensures rows == wanted
  {
    assert Slice(RowsFrom(lists, builders, i), offset, remaining) == [];
  }

  /** `_page_rows`, for any number of lists. */
  method PageRows<H, R>(lists: seq<seq<H>>, builders: seq<H -> R>, start: nat, size: nat) returns (rows: seq<R>)
    requires |lists| == |builders| && size > 0
    ensures rows == Slice(AllRows(lists, builders), start, size)
  {
    rows := [];
    var remaining: nat := size;
    var offset: nat := start;
    ghost var wanted := Slice(AllRows(lists, builders), start, size);
    StartsWanting(lists, builders, start, size);
    for i := 0 to |lists|
      invariant Wanting(wanted, rows, lists, builders, i, offset, remaining)
    {
      var hosts := lists[i];
      if offset >= |hosts| {
        SkipsList(wanted, rows, lists, builders, i, offset, remaining);
        offset := offset - |hosts|;
        continue;
      }
      var limit: nat := Min(remaining, |hosts| - offset);
      TakesFromList(wanted, rows, lists, builders, i, offset, remaining, limit);
      rows := rows + Map(builders[i], hosts[offset..offset + limit]);
      remaining := remaining - limit;
      offset := 0;
      if remaining == 0 {
        WantsNoMore(wanted, rows, lists, builders, i + 1, offset, remaining);
        return;
      }
    }
    WantsNoMore(wanted, rows, lists, builders, |lists|, offset, remaining);
  }

  // ---------------------------------------------------------------- page numbers and links

  /** What Python's int() makes of the page parameter, if anything; it reads every numeral back. */
  ghost predicate ReadsNumerals(parse: string -> Option<int>) {
    forall n: nat :: parse(FreshNames.Decimal(n)) == Some(n)
  }

  function PageSize(requested: nat, total: nat): (size: nat)
    ensures size > 0
  {
    if requested != 0 then requested else if total != 0 then total else 1
  }

  function Ceiling(total: nat, size: nat): nat
    requires size > 0
  {
    (total + size - 1) / size
  }

  function LastPage(total: nat, size: nat): (last: nat)
    requires size > 0
    ensures last >= 1
  {
    if Ceiling(total, size) > 1 then Ceiling(total, size) else 1
  }

  /** `_page_number`; None is "Invalid page". */
  function PageNumber(raw: Option<string>, parse: string -> Option<int>, total: nat, size: nat): (page: Option<nat>)
    requires size > 0
    ensures page.Some? ==> page.value >= 1
  {
    var text := if raw.Some? then raw.value else "1";
    if text == "last" then Some(LastPage(total, size))
    else
      var number := parse(text);
      if number.None? || number.value < 1 then None
      else if total == 0 && number.value != 1 then None
      else if total != 0 && (number.value - 1) * size >= total then None
      else Some(number.value)
  }

  lemma CeilingIs(total: nat, size: nat, n: nat)
    requires size > 0
    ensures n < Ceiling(total, size) <==> n * size < total
  {
    var c := Ceiling(total, size);
    assert c * size <= total + size - 1 < c * size + size;
    if n < c { ProductGrows(n + 1, c, size); }
    if n >= c { ProductGrows(c, n, size); }
  }

  lemma ProductGrows(m: nat, n: nat, size: nat)
    requires m <= n
    ensures m * size <= n * size
  {
  }

  /** The pages that exist are 1 up to the one "last" names, and an empty report still has page 1. */
  lemma PagesAreOneToLast(text: string, parse: string -> Option<int>, total: nat, size: nat)
    requires size > 0 && text != "last"
    ensures var page := PageNumber(Some(text), parse, total, size);
      && (page.Some? <==> parse(text).Some? && 1 <= parse(text).value <= LastPage(total, size))
      && (page.Some? ==> parse(text) == Some(page.value))
  {
    var number := parse(text);
    if number.Some? && number.value >= 1 { CeilingIs(total, size, number.value - 1); }
    CeilingIs(total, size, 0);
  }

  datatype Page<R> = Page(count: nat, next: Option<string>, previous: Option<string>, results: seq<R>)

  /** The n-th page; its links repeat the request with another page number. */
  function PageAt<R>(rows: seq<R>, size: nat, n: nat): Page<R>
    requires n >= 1
  {
    Page(|rows|,
         if n * size < |rows| then Some(FreshNames.Decimal(n + 1)) else None,
         if n > 1 then Some(FreshNames.Decimal(n - 1)) else None,
         Slice(rows, (n - 1) * size, size))
  }

  /** What the report answers. */
  function Get<R>(rows: seq<R>, requested: nat, parse: string -> Option<int>, raw: Option<string>): Option<Page<R>> {
    var size := PageSize(requested, |rows|);
    var number := PageNumber(raw, parse, |rows|, size);
    if number.None? then None else Some(PageAt(rows, size, number.value))
  }

  /** The sum of the host counts. */
  method Total<H, R>(lists: seq<seq<H>>, ghost builders: seq<H -> R>) returns (total: nat)
    requires |lists| == |builders|
    ensures total == |AllRows(lists, builders)|
  {
    total := 0;
    assert lists[0..] == lists && builders[0..] == builders;
    for i := 0 to |lists|
      invariant total + |RowsFrom(lists, builders, i)| == |AllRows(lists, builders)|
    {
      RowsFromUnfolds(lists, builders, i);
      total := total + |lists[i]|;
    }
  }

  /** `get`, on lists that the caller has already filtered and ordered. */
  method WarrantyReport<H, R>(
    lists: seq<seq<H>>, builders: seq<H -> R>, requested: nat, parse: string -> Option<int>, raw: Option<string>)
    returns (page: Option<Page<R>>)
    requires |lists| == |builders|
    ensures page == Get(AllRows(lists, builders), requested, parse, raw)
  {
    var total := Total(lists, builders);
    var size := PageSize(requested, total);
    var number := PageNumber(raw, parse, total, size);
    if number.None? { return None; }
    var n := number.value;
    var rows := PageRows(lists, builders, (n - 1) * size, size);
    return Some(Page(total,
                     if n * size < total then Some(FreshNames.Decimal(n + 1)) else None,
                     if n > 1 then Some(FreshNames.Decimal(n - 1)) else None,
                     rows));
  }

  // ---------------------------------------------------------------- following the links

  lemma DecimalIsNotLast(n: nat)
    ensures FreshNames.Decimal(n) != "last"
  {
    var s := FreshNames.Decimal(n);
    assert s[|s| - 1] in "0123456789";
  }

  /** A number names its page if the page exists. */
  lemma NumberedPage<R>(rows: seq<R>, requested: nat, parse: string -> Option<int>, n: nat)
    requires ReadsNumerals(parse)
    ensures var size := PageSize(requested, |rows|);
      Get(rows, requested, parse, Some(FreshNames.Decimal(n))) ==
        if 1 <= n <= LastPage(|rows|, size) then Some(PageAt(rows, size, n)) else None
  {
    DecimalIsNotLast(n);
    PagesAreOneToLast(FreshNames.Decimal(n), parse, |rows|, PageSize(requested, |rows|));
  }

  /**
   A numbered page counts all rows and shows as many of them as were asked for, or all of them if no number was
   asked for, from the place where the pages before it end; it links to its neighbours.
   */
  lemma PageShows<R>(rows: seq<R>, requested: nat, parse: string -> Option<int>, text: string, page: Page<R>)
    requires text != "last" && Get(rows, requested, parse, Some(text)) == Some(page)
    ensures parse(text).Some? && parse(text).value >= 1
    ensures var size := if requested > 0 then requested else Max(|rows|, 1); var n: nat := parse(text).value;
      && page.count == |rows|
      && 0 <= (n - 1) * size && (rows != [] ==> (n - 1) * size < |rows|)
      && |page.results| == Min(size, |rows| - (n - 1) * size)
      && (forall i :: 0 <= i < |page.results| ==> page.results[i] == rows[(n - 1) * size + i])
      && page.next == (if (n - 1) * size + size < |rows| then Some(FreshNames.Decimal(n + 1)) else None)
      && page.previous == (if n > 1 then Some(FreshNames.Decimal(n - 1)) else None)
  {
    var size, n := PageSize(requested, |rows|), parse(text).value;
    ProductGrows(0, n - 1, size);
    assert n * size == (n - 1) * size + size;
  }

  /** The links of an existing page. */
  lemma LinksOf<R>(rows: seq<R>, size: nat, n: nat)
    requires size > 0 && 1 <= n <= LastPage(|rows|, size)
    ensures PageAt(rows, size, n).next == if n < LastPage(|rows|, size) then Some(FreshNames.Decimal(n + 1)) else None
  {
    CeilingIs(|rows|, size, n);
  }

  /** Each page was reached by the `next` link of the one before, beginning with no page parameter. */
  ghost predicate Followed<R>(pages: seq<Page<R>>, rows: seq<R>, requested: nat, parse: string -> Option<int>) {
    && |pages| > 0
    && Get(rows, requested, parse, None) == Some(pages[0])
    && forall k :: 0 <= k < |pages| - 1 ==>
         pages[k].next.Some? && Get(rows, requested, parse, pages[k].next) == Some(pages[k + 1])
  }

  function Gathered<R>(pages: seq<Page<R>>): seq<R> {
    if pages == [] then [] else Gathered(pages[..|pages| - 1]) + pages[|pages| - 1].results
  }

  /** The k-th page followed is page k + 1. */
  lemma {:induction false} FollowedIsNumbered<R>(
    pages: seq<Page<R>>, rows: seq<R>, requested: nat, parse: string -> Option<int>, k: nat)
    requires ReadsNumerals(parse) && Followed(pages, rows, requested, parse) && k < |pages|
    ensures var size := PageSize(requested, |rows|);
      k < LastPage(|rows|, size) && pages[k] == PageAt(rows, size, k + 1)
  {
    if k == 0 {
      assert FreshNames.Decimal(1) == "1";
    } else {
      FollowedIsNumbered(pages, rows, requested, parse, k - 1);
      LinksOf(rows, PageSize(requested, |rows|), k);
      assert pages[k - 1].next == Some(FreshNames.Decimal(k + 1));
    }
    NumberedPage(rows, requested, parse, k + 1);
  }

  /** Pages 1, 2, and so on. */
  predicate InOrder<R(==)>(pages: seq<Page<R>>, rows: seq<R>, size: nat) {
    forall k {:trigger pages[k]} :: 0 <= k < |pages| ==> pages[k] == PageAt(rows, size, k + 1)
  }

  lemma {:induction false} GatheredSoFar<R>(pages: seq<Page<R>>, rows: seq<R>, size: nat)
    requires InOrder(pages, rows, size)
    ensures Gathered(pages) == rows[..Covered(|pages|, size, |rows|)]
  {
    var k := |pages|;
    if k > 0 {
      GatheredSoFar(pages[..k - 1], rows, size);
      assert pages[k - 1] == PageAt(rows, size, k);
      OnePageMore(rows, size, k);
    }
  }

  /** How many rows the first n pages hold. */
  function Covered(n: nat, size: nat, total: nat): (m: nat)
    ensures m <= total
  {
    ProductGrows(0, n, size);
    Min(n * size, total)
  }

  lemma OnePageMore<R>(rows: seq<R>, size: nat, n: nat)
    requires n >= 1
    ensures rows[..Covered(n - 1, size, |rows|)] + PageAt(rows, size, n).results == rows[..Covered(n, size, |rows|)]
  {
    ProductGrows(0, n - 1, size);
    assert n * size == (n - 1) * size + size;
    SliceExtends(rows, (n - 1) * size, size);
  }

  lemma SliceExtends<R>(rows: seq<R>, offset: nat, size: nat)
    ensures rows[..Min(offset, |rows|)] + Slice(rows, offset, size) == rows[..Min(offset + size, |rows|)]
  {
  }

  /** "last" names the last page that a number names. */
  lemma LastIsNumbered<R>(rows: seq<R>, requested: nat, parse: string -> Option<int>)
    ensures var size := PageSize(requested, |rows|);
      Get(rows, requested, parse, Some("last")) == Some(PageAt(rows, size, LastPage(|rows|, size)))
  {
  }

  lemma PrefixOf<R>(rows: seq<R>, m: nat)
    requires m <= |rows|
    ensures rows[..m] <= rows
  {
  }

  lemma LastPageIsFull(total: nat, size: nat, n: nat)
    requires size > 0 && n == LastPage(total, size)
    ensures Covered(n, size, total) == total
  {
    CeilingIs(total, size, n);
  }

  lemma FollowedIsPageAt<R>(pages: seq<Page<R>>, rows: seq<R>, requested: nat, parse: string -> Option<int>)
    requires ReadsNumerals(parse) && Followed(pages, rows, requested, parse)
    ensures var size := PageSize(requested, |rows|);
      && |pages| <= LastPage(|rows|, size)
      && InOrder(pages, rows, size)
  {
    var size := PageSize(requested, |rows|);
    forall k | 0 <= k < |pages| ensures pages[k] == PageAt(rows, size, k + 1) && k < LastPage(|rows|, size) {
      FollowedIsNumbered(pages, rows, requested, parse, k);
    }
    FollowedIsNumbered(pages, rows, requested, parse, |pages| - 1);
  }

  /** What has been gathered is a beginning of the rows, and all of them after the last page. */
  lemma GatheredIsPrefix<R>(pages: seq<Page<R>>, rows: seq<R>, requested: nat, parse: string -> Option<int>)
    requires ReadsNumerals(parse) && Followed(pages, rows, requested, parse)
    ensures Gathered(pages) <= rows
    ensures |pages| == LastPage(|rows|, PageSize(requested, |rows|)) ==> Gathered(pages) == rows
  {
    FollowedIsPageAt(pages, rows, requested, parse);
    OrderedPagesGather(pages, rows, PageSize(requested, |rows|));
  }

  lemma OrderedPagesGather<R>(pages: seq<Page<R>>, rows: seq<R>, size: nat)
    requires size > 0 && InOrder(pages, rows, size)
    ensures Gathered(pages) <= rows
    ensures |pages| == LastPage(|rows|, size) ==> Gathered(pages) == rows
  {
    GatheredSoFar(pages, rows, size);
    PrefixOf(rows, Covered(|pages|, size, |rows|));
    if |pages| == LastPage(|rows|, size) {
      LastPageIsFull(|rows|, size, |pages|);
      assert rows[..|rows|] == rows;
    }
  }

  /** The last link so far is missing exactly on the page that "last" names, and otherwise alive. */
  lemma EndOfFollowed<R>(pages: seq<Page<R>>, rows: seq<R>, requested: nat, parse: string -> Option<int>)
    requires ReadsNumerals(parse) && Followed(pages, rows, requested, parse)
    ensures var end := pages[|pages| - 1]; var last := LastPage(|rows|, PageSize(requested, |rows|));
      && |pages| <= last
      && (end.next.None? <==> |pages| == last)
      && (end.next.None? ==> Get(rows, requested, parse, Some("last")) == Some(end))
      && (end.next.Some? ==> Get(rows, requested, parse, end.next).Some?)
  {
    var n, size := |pages|, PageSize(requested, |rows|);
    FollowedIsPageAt(pages, rows, requested, parse);
    assert pages[n - 1] == PageAt(rows, size, n);
    LinksOf(rows, size, n);
    LastIsNumbered(rows, requested, parse);
    NumberedPage(rows, requested, parse, n + 1);
  }

  /**
   Following `next` from the first page shows every row once and in order. It stops exactly on the page
   that "last" names, and no link on the way is dead.
   */
  lemma FollowingNextVisitsEveryRow<R>(
    pages: seq<Page<R>>, rows: seq<R>, requested: nat, parse: string -> Option<int>)
    requires ReadsNumerals(parse) && Followed(pages, rows, requested, parse)
    ensures var end := pages[|pages| - 1]; var last := LastPage(|rows|, PageSize(requested, |rows|));
      && |pages| <= last
      && Gathered(pages) <= rows
      && (end.next.None? <==> |pages| == last)
      && (end.next.None? ==> Gathered(pages) == rows && Get(rows, requested, parse, Some("last")) == Some(end))
      && (end.next.Some? ==> Get(rows, requested, parse, end.next).Some?)
  {
    GatheredIsPrefix(pages, rows, requested, parse);
    EndOfFollowed(pages, rows, requested, parse);
  }

  lemma PreviousLeadsBack<R>(
    pages: seq<Page<R>>, rows: seq<R>, requested: nat, parse: string -> Option<int>, k: nat)
    requires ReadsNumerals(parse) && Followed(pages, rows, requested, parse) && 0 < k < |pages|
    ensures Get(rows, requested, parse, pages[k].previous) == Some(pages[k - 1])
  {
    FollowedIsNumbered(pages, rows, requested, parse, k - 1);
    FollowedIsNumbered(pages, rows, requested, parse, k);
    NumberedPage(rows, requested, parse, k);
  }
}
