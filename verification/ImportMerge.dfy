/** Applying rows one by one is a merge per product name. */
module ImportMerge {
  import opened Options
  import opened ImportModel

  // ---------------------------------------------------------------- the merge, without any table

  /** The rows that were not rejected, in order. */
  function Accepted(items: seq<Item>, results: seq<Result>): seq<Item>
    requires |items| == |results|
  {
    if items == [] then []
    else
      var rest := Accepted(items[..|items| - 1], results[..|items| - 1]);
      if results[|items| - 1] == Rejected then rest else rest + [items[|items| - 1]]
  }

  function Names(items: seq<Item>): set<Name> {
    set k | 0 <= k < |items| :: items[k].name
  }

  /** Buckets of the first row with the name. */
  function FirstBuckets(items: seq<Item>, name: Name): Option<Buckets> {
    if items == [] then None
    else if items[0].name == name then Some(items[0].buckets)
    else FirstBuckets(items[1..], name)
  }

  /** Value of the column in the last row with the name that sets it. */
  function LastSet(
    items: seq<Item>, name: Name, field: Field, env: Env, categories: map<string, CategoryId>): Option<Value>
  {
    if items == [] then None
    else
      var last := items[|items| - 1];
      var values := Sets(last, env, categories);
      if last.name == name && field in values then Some(values[field])
      else LastSet(items[..|items| - 1], name, field, env, categories)
  }

  function BaseFields(t: Table, name: Name): map<Field, Value> {
    if name in t.products then t.products[name].fields else COLUMN_DEFAULTS
  }

  function FirstSome<T>(a: Option<T>, b: Option<T>): Option<T> {
    if a.Some? then a else b
  }

  predicate BucketsMerged(before: Table, after: Table, items: seq<Item>, n: Name)
    requires n in after.products
  {
    Some(after.products[n].buckets) ==
      if n in before.products then Some(before.products[n].buckets) else FirstBuckets(items, n)
  }

  predicate ColumnMerged(before: Table, after: Table, env: Env, items: seq<Item>, n: Name, f: Field)
    requires n in after.products
  {
    Lookup(after.products[n].fields, f) ==
      FirstSome(LastSet(items, n, f, env, after.categories), Lookup(BaseFields(before, n), f))
  }

  /**
   `after` is `before` with the rows merged in: an existing product keeps its buckets, a new one
   takes them from its first row, and every other column takes the last row that sets it.
   */
  ghost predicate Merged(before: Table, after: Table, env: Env, items: seq<Item>) {
    && after.products.Keys == before.products.Keys + Names(items)
    && (forall n :: n in after.products ==> BucketsMerged(before, after, items, n))
    && (forall n, f :: n in after.products ==> ColumnMerged(before, after, env, items, n, f))
  }

  /** Known categories keep their ids, and every row's category is known. */
  ghost predicate CategoriesGrow(before: Table, after: Table, env: Env, items: seq<Item>) {
    && (forall c :: c in before.categories ==> c in after.categories && after.categories[c] == before.categories[c])
    && forall k :: 0 <= k < |items| && items[k].category.Some? ==> env.fold(items[k].category.value) in after.categories
  }

  lemma {:induction false} LastSetKeepsWithCategories(
    items: seq<Item>, name: Name, field: Field, env: Env, a: map<string, CategoryId>, b: map<string, CategoryId>)
    requires forall c :: c in a ==> c in b && b[c] == a[c]
    requires forall k :: 0 <= k < |items| && items[k].category.Some? ==> env.fold(items[k].category.value) in a
    ensures LastSet(items, name, field, env, a) == LastSet(items, name, field, env, b)
  {
    if items != [] {
      LastSetKeepsWithCategories(items[..|items| - 1], name, field, env, a, b);
    }
  }

  lemma {:induction false} FirstBucketsSnoc(items: seq<Item>, last: Item, name: Name)
    ensures FirstBuckets(items + [last], name) ==
      FirstSome(FirstBuckets(items, name), if last.name == name then Some(last.buckets) else None)
    ensures FirstBuckets(items, name).Some? <==> name in Names(items)
  {
    if items == [] {
      assert items + [last] == [last];
    } else {
      assert (items + [last])[1..] == items[1..] + [last];
      FirstBucketsSnoc(items[1..], last, name);
      assert items == [items[0]] + items[1..];
      assert name in Names(items[1..]) ==> exists k :: 1 <= k < |items| && items[k].name == name;
    }
  }

  lemma NamesSnoc(items: seq<Item>, last: Item)
    ensures Names(items + [last]) == Names(items) + {last.name}
  {
    forall n ensures n in Names(items + [last]) <==> n in Names(items) + {last.name} {
      if n in Names(items) {
        var k :| 0 <= k < |items| && items[k].name == n;
        assert (items + [last])[k].name == n;
      }
      assert (items + [last])[|items|] == last;
    }
  }

  lemma {:induction false} UnnamedSetNothing(
    items: seq<Item>, name: Name, field: Field, env: Env, categories: map<string, CategoryId>)
    requires name !in Names(items)
    ensures LastSet(items, name, field, env, categories) == None
  {
    if items != [] {
      assert items[|items| - 1].name in Names(items);
      UnnamedSetNothing(items[..|items| - 1], name, field, env, categories);
    }
  }

  /** The step from `t` to `t'` wrote the column if the row sets it, and otherwise left it. */
  predicate WroteColumn(t: Table, t': Table, env: Env, last: Item, n: Name, f: Field)
    requires n in t'.products
  {
    Lookup(t'.products[n].fields, f) ==
      FirstSome(if last.name == n then Lookup(Sets(last, env, t'.categories), f) else None, Lookup(BaseFields(t, n), f))
  }

  /** The row's columns went into its product and into no other. */
  ghost predicate WroteColumns(t: Table, t': Table, env: Env, last: Item) {
    forall n, f :: n in t'.products ==> WroteColumn(t, t', env, last, n, f)
  }

  lemma RowWritesItsColumns(t: Table, env: Env, last: Item)
    requires ApplyRow(t, env, last).1 != Rejected
    ensures WroteColumns(t, ApplyRow(t, env, last).0, env, last)
  {
  }

  lemma LastSetSnoc(
    items: seq<Item>, last: Item, name: Name, field: Field, env: Env, categories: map<string, CategoryId>)
    ensures LastSet(items + [last], name, field, env, categories) ==
      FirstSome(if last.name == name then Lookup(Sets(last, env, categories), field) else None,
                LastSet(items, name, field, env, categories))
  {
    assert (items + [last])[..|items + [last]| - 1] == items;
  }

  lemma OneMoreRowColumn(
    before: Table, t: Table, t': Table, env: Env, items: seq<Item>, last: Item, n: Name, f: Field)
    requires Merged(before, t, env, items)
    requires CategoriesGrow(before, t, env, items) && CategoriesGrow(t, t', env, [])
    requires WroteColumns(t, t', env, last) && n in t'.products
    ensures ColumnMerged(before, t', env, items + [last], n, f)
  {
    LastSetSnoc(items, last, n, f, env, t'.categories);
    LastSetKeepsWithCategories(items, n, f, env, t.categories, t'.categories);
    assert WroteColumn(t, t', env, last, n, f);
    assert Lookup(BaseFields(t, n), f) ==
      FirstSome(LastSet(items, n, f, env, t.categories), Lookup(BaseFields(before, n), f)) by
    {
      if n in t.products {
        assert ColumnMerged(before, t, env, items, n, f);
      } else {
        UnnamedSetNothing(items, n, f, env, t.categories);
      }
    }
  }

  lemma OneMoreRowBuckets(before: Table, t: Table, env: Env, items: seq<Item>, last: Item, n: Name)
    requires Merged(before, t, env, items)
    requires ApplyRow(t, env, last).1 != Rejected
    requires n in ApplyRow(t, env, last).0.products
    ensures BucketsMerged(before, ApplyRow(t, env, last).0, items + [last], n)
  {
    FirstBucketsSnoc(items, last, n);
    if n in t.products { assert BucketsMerged(before, t, items, n); }
  }

  lemma OneMoreRowKeys(t: Table, env: Env, last: Item)
    ensures ApplyRow(t, env, last).0.products.Keys ==
      if ApplyRow(t, env, last).1 == Rejected then t.products.Keys else t.products.Keys + {last.name}
    ensures ApplyRow(t, env, last).1 == Created ==> last.name !in t.products
    ensures ApplyRow(t, env, last).1 == Updated ==> last.name in t.products
  {
  }

  lemma OneMoreRowCategories(before: Table, t: Table, env: Env, items: seq<Item>, last: Item)
    requires CategoriesGrow(before, t, env, items)
    requires ApplyRow(t, env, last).1 != Rejected
    ensures CategoriesGrow(before, ApplyRow(t, env, last).0, env, items + [last])
    ensures CategoriesGrow(t, ApplyRow(t, env, last).0, env, [])
  {
  }

  /** One more accepted row extends the merge. */
  lemma OneMoreRow(before: Table, t: Table, env: Env, items: seq<Item>, last: Item)
    requires Merged(before, t, env, items) && CategoriesGrow(before, t, env, items)
    requires ApplyRow(t, env, last).1 != Rejected
    ensures Merged(before, ApplyRow(t, env, last).0, env, items + [last])
    ensures CategoriesGrow(before, ApplyRow(t, env, last).0, env, items + [last])
  {
    var t' := ApplyRow(t, env, last).0;
    NamesSnoc(items, last);
    OneMoreRowKeys(t, env, last);
    OneMoreRowCategories(before, t, env, items, last);
    RowWritesItsColumns(t, env, last);
    forall n | n in t'.products ensures BucketsMerged(before, t', items + [last], n) {
      OneMoreRowBuckets(before, t, env, items, last, n);
    }
    forall n, f | n in t'.products ensures ColumnMerged(before, t', env, items + [last], n, f) {
      OneMoreRowColumn(before, t, t', env, items, last, n, f);
    }
  }

  /** A rejected row leaves the table as it was. */
  lemma RejectedRowChangesNothing(t: Table, env: Env, item: Item)
    requires ApplyRow(t, env, item).1 == Rejected
    ensures ApplyRow(t, env, item).0 == t
  {
  }

  lemma {:induction false} AcceptedSnoc(items: seq<Item>, results: seq<Result>, last: Item, result: Result)
    requires |items| == |results|
    ensures Accepted(items + [last], results + [result]) ==
      if result == Rejected then Accepted(items, results) else Accepted(items, results) + [last]
  {
    assert (items + [last])[..|items + [last]| - 1] == items;
    assert (results + [result])[..|results + [result]| - 1] == results;
  }

  lemma ApplySnoc(t: Table, env: Env, items: seq<Item>, last: Item)
    ensures var before := ApplyRows(t, env, items); var step := ApplyRow(before.0, env, last);
      ApplyRows(t, env, items + [last]) == (step.0, before.1 + [step.1])
  {
    assert (items + [last])[..|items + [last]| - 1] == items;
  }

  /** The import is what it would have been without its rejected rows, which leave no trace. */
  lemma {:induction false} RejectedRowsLeaveNoTrace(t: Table, env: Env, items: seq<Item>)
    ensures var r := ApplyRows(t, env, items); var kept := ApplyRows(t, env, Accepted(items, r.1));
      kept.0 == r.0 && Rejected !in kept.1
  {
    if items != [] {
      var init, last := items[..|items| - 1], items[|items| - 1];
      var before := ApplyRows(t, env, init);
      var step := ApplyRow(before.0, env, last);
      assert items == init + [last];
      RejectedRowsLeaveNoTrace(t, env, init);
      ApplySnoc(t, env, init, last);
      AcceptedSnoc(init, before.1, last, step.1);
      if step.1 == Rejected {
        RejectedRowChangesNothing(before.0, env, last);
      } else {
        ApplySnoc(t, env, Accepted(init, before.1), last);
      }
    }
  }

  /** Row by row, the import is the per-name merge of its accepted rows. */
  lemma {:induction false} ImportIsMerge(t: Table, env: Env, items: seq<Item>)
    ensures var r := ApplyRows(t, env, items);
      && Merged(t, r.0, env, Accepted(items, r.1))
      && CategoriesGrow(t, r.0, env, Accepted(items, r.1))
  {
    if items != [] {
      var n := |items| - 1;
      ImportIsMerge(t, env, items[..n]);
      var before := ApplyRows(t, env, items[..n]);
      var r := ApplyRows(t, env, items);
      assert r.1[..n] == before.1;
      if r.1[n] != Rejected {
        OneMoreRow(t, before.0, env, Accepted(items[..n], before.1), items[n]);
      }
    }
  }

  // ---------------------------------------------------------------- counts

  function Count(results: seq<Result>, wanted: Result): nat {
    if results == [] then 0
    else Count(results[..|results| - 1], wanted) + if results[|results| - 1] == wanted then 1 else 0
  }

  /** Creations account for the names gained since `start`, and every row has a result. */
  predicate Tallied(start: set<Name>, now: set<Name>, results: seq<Result>) {
    && start <= now
    && Count(results, Created) == |now - start|
    && Count(results, Created) + Count(results, Updated) + Count(results, Rejected) == |results|
  }

  lemma OneMoreResult(
    start: set<Name>, before: set<Name>, after: set<Name>, results: seq<Result>, last: Result, name: Name)
    requires Tallied(start, before, results)
    requires after == if last == Rejected then before else before + {name}
    requires last == Created ==> name !in before
    requires last == Updated ==> name in before
    ensures Tallied(start, after, results + [last])
  {
    assert (results + [last])[..|results + [last]| - 1] == results;
    if last == Created {
      assert after - start == (before - start) + {name};
    } else {
      assert after == before;
    }
  }

  lemma {:induction false} CreatedCountsNewProducts(t: Table, env: Env, items: seq<Item>)
    ensures Tallied(t.products.Keys, ApplyRows(t, env, items).0.products.Keys, ApplyRows(t, env, items).1)
  {
    if items != [] {
      var n := |items| - 1;
      CreatedCountsNewProducts(t, env, items[..n]);
      var before := ApplyRows(t, env, items[..n]);
      OneMoreRowKeys(before.0, env, items[n]);
      var step := ApplyRow(before.0, env, items[n]);
      OneMoreResult(t.products.Keys, before.0.products.Keys, step.0.products.Keys, before.1, step.1, items[n].name);
    }
  }

  predicate NoIntegrityErrors(results: seq<Result>) {
    Rejected !in results
  }

  lemma {:induction false} AllAccepted(items: seq<Item>, results: seq<Result>)
    requires |items| == |results| && NoIntegrityErrors(results)
    ensures Accepted(items, results) == items
  {
    if items != [] {
      AllAccepted(items[..|items| - 1], results[..|items| - 1]);
      assert items == items[..|items| - 1] + [items[|items| - 1]];
    }
  }

  /** How many of the names that the database stores for these rows no product has yet. */
  function NewNames(t: Table, items: seq<Item>): nat {
    |Names(items) - t.products.Keys|
  }

  /** Without integrity errors the import creates one product for each new name. */
  lemma CreatedAreTheNewNames(t: Table, env: Env, items: seq<Item>)
    requires NoIntegrityErrors(ApplyRows(t, env, items).1)
    ensures Count(ApplyRows(t, env, items).1, Created) == NewNames(t, items)
  {
    AllNamesArrive(t, env, items);
    CreatedCountsNewProducts(t, env, items);
  }

  lemma AllNamesArrive(t: Table, env: Env, items: seq<Item>)
    requires NoIntegrityErrors(ApplyRows(t, env, items).1)
    ensures ApplyRows(t, env, items).0.products.Keys - t.products.Keys == Names(items) - t.products.Keys
  {
    var r := ApplyRows(t, env, items);
    ImportIsMerge(t, env, items);
    AllAccepted(items, r.1);
    assert r.0.products.Keys == t.products.Keys + Names(items);
  }

  /** With them it creates no more. */
  lemma CreatedWithinNewNames(t: Table, env: Env, items: seq<Item>)
    ensures Count(ApplyRows(t, env, items).1, Created) <= NewNames(t, items)
  {
    var r := ApplyRows(t, env, items);
    ImportIsMerge(t, env, items);
    CreatedCountsNewProducts(t, env, items);
    AcceptedNames(items, r.1);
    SmallerSet(r.0.products.Keys - t.products.Keys, Names(items) - t.products.Keys);
  }

  lemma SmallerSet<T>(a: set<T>, b: set<T>)
    requires a <= b
    ensures |a| <= |b|
  {
    assert b == a + (b - a);
  }

  lemma {:induction false} AcceptedNames(items: seq<Item>, results: seq<Result>)
    requires |items| == |results|
    ensures Names(Accepted(items, results)) <= Names(items)
  {
    if items != [] {
      var n := |items| - 1;
      AcceptedNames(items[..n], results[..n]);
      NamesSnoc(items[..n], items[n]);
      assert items[..n] + [items[n]] == items;
      NamesSnoc(Accepted(items[..n], results[..n]), items[n]);
    }
  }

  // ---------------------------------------------------------------- applying the rows again

  /** A second merge of the same rows finds every column as it would set it. */
  lemma MergingAgain(t: Table, once: Table, twice: Table, env: Env, items: seq<Item>)
    requires Merged(t, once, env, items) && CategoriesGrow(t, once, env, items)
    requires Merged(once, twice, env, items) && twice.categories == once.categories
    requires Names(items) <= once.products.Keys
    ensures twice.products == once.products
  {
    forall n | n in once.products ensures twice.products[n] == once.products[n] {
      forall f ensures Lookup(twice.products[n].fields, f) == Lookup(once.products[n].fields, f) {
        assert ColumnMerged(t, once, env, items, n, f) && ColumnMerged(once, twice, env, items, n, f);
      }
      SameLookupsSameMap(twice.products[n].fields, once.products[n].fields);
      assert BucketsMerged(once, twice, items, n);
    }
  }

  /** The same rows, applied again without integrity errors, create nothing and change nothing. */
  lemma ReapplyingChangesNothing(t: Table, env: Env, items: seq<Item>)
    requires NoIntegrityErrors(ApplyRows(t, env, items).1)
    requires NoIntegrityErrors(ApplyRows(ApplyRows(t, env, items).0, env, items).1)
    ensures var once := ApplyRows(t, env, items).0; var twice := ApplyRows(once, env, items);
      && Count(twice.1, Created) == 0
      && twice.0 == once
  {
    var first := ApplyRows(t, env, items);
    var once := first.0;
    var second := ApplyRows(once, env, items);
    ImportIsMerge(t, env, items);
    ImportIsMerge(once, env, items);
    AllAccepted(items, first.1);
    AllAccepted(items, second.1);
    KnownCategoriesStay(once, env, items);
    MergingAgain(t, once, second.0, env, items);
    CreatedAreTheNewNames(once, env, items);
    assert Names(items) - once.products.Keys == {};
  }

  lemma SameLookupsSameMap<K, V>(a: map<K, V>, b: map<K, V>)
    requires forall k :: Lookup(a, k) == Lookup(b, k)
    ensures a == b
  {
    assert forall k :: k in a <==> Lookup(a, k).Some?;
    assert forall k :: k in b <==> Lookup(b, k).Some?;
  }

  lemma {:induction false} KnownCategoriesStay(t: Table, env: Env, items: seq<Item>)
    requires forall k :: 0 <= k < |items| && items[k].category.Some? ==>
      env.fold(items[k].category.value) in t.categories
    ensures var after := ApplyRows(t, env, items).0;
      after.categories == t.categories && after.slugs == t.slugs && after.nextCategory == t.nextCategory
  {
    if items != [] {
      KnownCategoriesStay(t, env, items[..|items| - 1]);
    }
  }

  // ---------------------------------------------------------------- stock

  /** The check constraints on the quantity columns of a product. */
  predicate StockHolds(b: Buckets) {
    && 0 <= b.total && 0 <= b.available && 0 <= b.reserved && 0 <= b.issued && 0 <= b.damaged && 0 <= b.lost
    && 0 <= b.needsFix
    && b.available + b.reserved + b.issued + b.damaged + b.lost + b.needsFix <= b.total
  }

  ghost predicate AllStockHolds(t: Table) {
    forall n :: n in t.products ==> StockHolds(t.products[n].buckets)
  }

  /** Rows that normalisation accepts never break the stock arithmetic of the table, whatever else happens. */
  lemma {:induction false} ImportKeepsStock(t: Table, env: Env, items: seq<Item>)
    requires AllStockHolds(t)
    requires forall k :: 0 <= k < |items| ==> StockHolds(items[k].buckets)
    ensures AllStockHolds(ApplyRows(t, env, items).0)
  {
    if items != [] {
      ImportKeepsStock(t, env, items[..|items| - 1]);
    }
  }
}
